/** Keeping and dropping dice: an insertion sort of indices in place, then a flag per die. */
module DiceSelection {

  datatype Die = Die(faces: nat, value: int, kept: bool)

  datatype Mode = KeepHigh | KeepLow | DropHigh | DropLow

  predicate Descending(mode: Mode) {
    mode.KeepHigh? || mode.DropHigh?
  }

  predicate Keeping(mode: Mode) {
    mode.KeepHigh? || mode.KeepLow?
  }

  // The die at index x goes strictly ahead of the die at index y.
  predicate Beats(dice: seq<Die>, descending: bool, x: nat, y: nat)
    requires x < |dice| && y < |dice|
  {
    if descending then dice[x].value > dice[y].value else dice[x].value < dice[y].value
  }

  predicate Indices(order: seq<nat>, n: nat) {
    forall i :: 0 <= i < |order| ==> order[i] < n
  }

  // An index moves left past every index it beats.
  function Insert(dice: seq<Die>, descending: bool, order: seq<nat>, x: nat): (r: seq<nat>)
    requires Indices(order, |dice|) && x < |dice|
    ensures |r| == |order| + 1 && Indices(r, |dice|)
  {
    if order == [] then [x]
    else
      var last := order[|order| - 1];
      if Beats(dice, descending, x, last) then Insert(dice, descending, order[..|order| - 1], x) + [last]
      else order + [x]
  }

  function Order(dice: seq<Die>, descending: bool, n: nat): (r: seq<nat>)
    requires n <= |dice|
    ensures |r| == n && Indices(r, |dice|)
  {
    if n == 0 then [] else Insert(dice, descending, Order(dice, descending, n - 1), n - 1)
  }

  // The flag a die gets at a position of the order.
  function Flag(die: Die, mode: Mode, amount: nat, position: nat): Die {
    if Keeping(mode) then die.(kept := position < amount)
    else if position < amount then die.(kept := false)
    else die
  }

  function Marked(dice: seq<Die>, order: seq<nat>, mode: Mode, amount: nat, upTo: nat): (r: seq<Die>)
    requires upTo <= |order| && Indices(order, |dice|)
    ensures |r| == |dice|
  {
    if upTo == 0 then dice
    else
      var before := Marked(dice, order, mode, amount, upTo - 1);
      before[order[upTo - 1] := Flag(before[order[upTo - 1]], mode, amount, upTo - 1)]
  }

  function Selected(dice: seq<Die>, mode: Mode, amount: nat): (r: seq<Die>)
    ensures |r| == |dice|
  {
    Marked(dice, Order(dice, Descending(mode), |dice|), mode, amount, |dice|)
  }

  // Sliding x from the end of a sorted stretch to where it belongs.
  lemma {:induction false} SlideStep(dice: seq<Die>, descending: bool, order: seq<nat>, j: nat, x: nat)
    requires Indices(order, |dice|) && x < |dice| && 0 < j <= |order|
    ensures Beats(dice, descending, x, order[j - 1]) ==>
              Insert(dice, descending, order[..j], x) == Insert(dice, descending, order[..j - 1], x) + [order[j - 1]]
    ensures !Beats(dice, descending, x, order[j - 1]) ==>
              Insert(dice, descending, order[..j], x) == order[..j] + [x]
  {
    assert order[..j][..j - 1] == order[..j - 1];
  }

  method SortIndices(dice: array<Die>, descending: bool) returns (order: array<nat>)
    ensures fresh(order) && order[..] == Order(dice[..], descending, dice.Length)
  {
    var n := dice.Length;
    order := new nat[n](i => i);
    if n == 0 {
      return;
    }
    var i := 1;
    assert order[..1] == [0];
    assert Order(dice[..], descending, 1) == [0] by {
      assert Order(dice[..], descending, 0) == [];
    }
    while i < n
      invariant 1 <= i <= n
      invariant order[..i] == Order(dice[..], descending, i)
      invariant forall k :: i <= k < n ==> order[k] == k
    {
      SlideIn(dice, descending, order, i);
      i := i + 1;
    }
    assert order[..n] == order[..];
  }

  // A sorted stretch with x at place j.
  function Slid(sorted: seq<nat>, j: nat, x: nat): (r: seq<nat>)
    requires j <= |sorted|
    ensures |r| == |sorted| + 1 && r[j] == x && (j > 0 ==> r[j - 1] == sorted[j - 1])
  {
    sorted[..j] + [x] + sorted[j..]
  }

  lemma SlidLeft(sorted: seq<nat>, j: nat, x: nat)
    requires 0 < j <= |sorted|
    ensures Slid(sorted, j - 1, x) == Slid(sorted, j, x)[j - 1 := x][j := sorted[j - 1]]
  {
  }

  // Where the slide has got to: what is left to do is an insertion into the first j.
  predicate Sliding(dice: seq<Die>, descending: bool, sorted: seq<nat>, j: nat, x: nat, target: seq<nat>)
    requires Indices(sorted, |dice|) && x < |dice| && j <= |sorted|
  {
    target == Insert(dice, descending, sorted[..j], x) + sorted[j..]
  }

  lemma SlidingStep(dice: seq<Die>, descending: bool, sorted: seq<nat>, j: nat, x: nat, target: seq<nat>)
    requires Indices(sorted, |dice|) && x < |dice| && j <= |sorted| && Sliding(dice, descending, sorted, j, x, target)
    ensures j == 0 ==> target == Slid(sorted, 0, x)
    ensures j > 0 && !Beats(dice, descending, x, sorted[j - 1]) ==> target == Slid(sorted, j, x)
    ensures j > 0 && Beats(dice, descending, x, sorted[j - 1]) ==> Sliding(dice, descending, sorted, j - 1, x, target)
  {
    if j > 0 {
      SlideStep(dice, descending, sorted, j, x);
      assert [sorted[j - 1]] + sorted[j..] == sorted[j - 1..];
    } else {
      assert sorted[..0] == [];
    }
  }

  // The inner loop: swap order[i] leftwards while it beats its neighbour.
  method SlideIn(dice: array<Die>, descending: bool, order: array<nat>, i: nat)
    requires order.Length == dice.Length && 1 <= i < order.Length && order[i] == i
    requires Indices(order[..i], dice.Length)
    modifies order
    ensures order[..i + 1] == Insert(dice[..], descending, old(order[..i]), i)
    ensures forall k :: i < k < order.Length ==> order[k] == old(order[k])
  {
    ghost var sorted, all := order[..i], dice[..];
    ghost var target := Insert(all, descending, sorted, i);
    var j := i;
    assert sorted[..i] == sorted && sorted[i..] == [];
    assert order[..i + 1] == Slid(sorted, i, i);
    while j > 0
      invariant 0 <= j <= i
      invariant order[..i + 1] == Slid(sorted, j, i)
      invariant forall k :: i < k < order.Length ==> order[k] == old(order[k])
      invariant Sliding(all, descending, sorted, j, i, target)
    {
      ghost var was := order[..i + 1];
      assert order[j - 1] == was[j - 1] == sorted[j - 1] && order[j] == was[j] == i;
      SlidingStep(all, descending, sorted, j, i, target);
      var left, right := dice[order[j - 1]].value, dice[order[j]].value;
      assert Beats(all, descending, i, sorted[j - 1]) == ((descending && right > left) || (!descending && right < left));
      if (descending && right > left) || (!descending && right < left) {
        order[j], order[j - 1] := order[j - 1], order[j];
        assert order[..i + 1] == was[j - 1 := i][j := sorted[j - 1]];
        SlidLeft(sorted, j, i);
        j := j - 1;
      } else {
        return;
      }
    }
    SlidingStep(all, descending, sorted, 0, i, target);
  }

  /** The flags are written over the dice themselves. */
  method ApplySelection(dice: array<Die>, mode: Mode, amount: nat)
    modifies dice
    ensures dice[..] == Selected(old(dice[..]), mode, amount)
  {
    ghost var before := dice[..];
    var order := SortIndices(dice, Descending(mode));
    ghost var sorted := order[..];
    var position := 0;
    while position < order.Length
      invariant 0 <= position <= order.Length == dice.Length
      invariant order[..] == sorted
      invariant dice[..] == Marked(before, sorted, mode, amount, position)
    {
      var index := order[position];
      assert index == sorted[position];
      dice[index] := Flag(dice[index], mode, amount, position);
      position := position + 1;
    }
  }

  // ----- The order is a sorted permutation -----

  predicate Distinct(order: seq<nat>) {
    forall i, j :: 0 <= i < j < |order| ==> order[i] != order[j]
  }

  ghost predicate Permutes(order: seq<nat>, n: nat) {
    && Distinct(order)
    && (forall k :: k in order <==> 0 <= k < n)
  }

  predicate Ranked(dice: seq<Die>, descending: bool, order: seq<nat>)
    requires Indices(order, |dice|)
  {
    forall i, j :: 0 <= i < j < |order| ==> !Beats(dice, descending, order[j], order[i])
  }

  lemma {:induction false} InsertMembers(dice: seq<Die>, descending: bool, order: seq<nat>, x: nat)
    requires Indices(order, |dice|) && x < |dice|
    ensures forall k :: k in Insert(dice, descending, order, x) <==> k == x || k in order
    decreases |order|
  {
    if order != [] {
      var last := order[|order| - 1];
      assert order == order[..|order| - 1] + [last];
      InsertMembers(dice, descending, order[..|order| - 1], x);
    }
  }

  lemma {:induction false} InsertRanks(dice: seq<Die>, descending: bool, order: seq<nat>, x: nat)
    requires Indices(order, |dice|) && x < |dice| && x !in order
    requires Ranked(dice, descending, order)
    requires Distinct(order)
    ensures Ranked(dice, descending, Insert(dice, descending, order, x))
    ensures Distinct(Insert(dice, descending, order, x))
    decreases |order|
  {
    if order != [] {
      var front, last := order[..|order| - 1], order[|order| - 1];
      InsertRanks(dice, descending, front, x);
      InsertMembers(dice, descending, front, x);
      var r := Insert(dice, descending, front, x);
      if Beats(dice, descending, x, last) {
        forall i | 0 <= i < |r|
          ensures r[i] != last && !Beats(dice, descending, last, r[i])
        {
          assert r[i] in r;
          if r[i] != x {
            var k :| 0 <= k < |front| && front[k] == r[i];
            assert order[k] == r[i];
          }
        }
      } else {
        forall i | 0 <= i < |order|
          ensures !Beats(dice, descending, x, order[i]) && order[i] != x
        {
          assert order[i] in order;
        }
      }
    }
  }

  lemma {:induction false} OrderIsSorted(dice: seq<Die>, descending: bool, n: nat)
    requires n <= |dice|
    ensures Permutes(Order(dice, descending, n), n) && Ranked(dice, descending, Order(dice, descending, n))
  {
    if n > 0 {
      OrderIsSorted(dice, descending, n - 1);
      var before := Order(dice, descending, n - 1);
      InsertMembers(dice, descending, before, n - 1);
      InsertRanks(dice, descending, before, n - 1);
    }
  }

  // ----- What is kept -----

  function Flags(dice: seq<Die>): (r: seq<bool>)
    ensures |r| == |dice| && forall i :: 0 <= i < |r| ==> r[i] == dice[i].kept
  {
    seq(|dice|, i requires 0 <= i < |dice| => dice[i].kept)
  }

  function Values(dice: seq<Die>): (r: seq<int>)
    ensures |r| == |dice| && forall i :: 0 <= i < |r| ==> r[i] == dice[i].value
  {
    seq(|dice|, i requires 0 <= i < |dice| => dice[i].value)
  }

  function Count(flags: seq<bool>): nat {
    if flags == [] then 0 else (if flags[0] then 1 else 0) + Count(flags[1..])
  }

  // The subtotal a choice of dice gives.
  function Subtotal(values: seq<int>, flags: seq<bool>): int
    requires |values| == |flags|
  {
    if flags == [] then 0 else (if flags[0] then values[0] else 0) + Subtotal(values[1..], flags[1..])
  }

  lemma {:induction false} CountUpdate(flags: seq<bool>, i: nat, flag: bool)
    requires i < |flags|
    ensures Count(flags[i := flag]) == Count(flags) - (if flags[i] then 1 else 0) + (if flag then 1 else 0)
  {
    if i == 0 {
      assert flags[0 := flag][1..] == flags[1..];
    } else {
      CountUpdate(flags[1..], i - 1, flag);
      assert flags[i := flag][1..] == flags[1..][i - 1 := flag];
    }
  }

  lemma {:induction false} CountAll(flags: seq<bool>)
    requires forall i :: 0 <= i < |flags| ==> flags[i]
    ensures Count(flags) == |flags|
  {
    if flags != [] {
      CountAll(flags[1..]);
    }
  }

  // The flag of the die at position p of the order, once the first upTo have been marked.
  function Mark(mode: Mode, amount: nat, p: nat, upTo: nat): bool {
    if p >= upTo then true else if Keeping(mode) then p < amount else p >= amount
  }

  // How many of the first upTo positions are kept.
  function KeptOf(mode: Mode, amount: nat, upTo: nat): nat {
    var first := if upTo <= amount then upTo else amount;
    if Keeping(mode) then first else upTo - first
  }

  lemma {:induction false} MarkedFlags(dice: seq<Die>, order: seq<nat>, mode: Mode, amount: nat, upTo: nat)
    requires upTo <= |order| == |dice| && Indices(order, |dice|)
    requires Distinct(order)
    requires forall i :: 0 <= i < |dice| ==> dice[i].kept
    ensures var r := Marked(dice, order, mode, amount, upTo);
            && Values(r) == Values(dice)
            && (forall p :: 0 <= p < |order| ==> r[order[p]].kept == Mark(mode, amount, p, upTo))
            && Count(Flags(r)) == |dice| - upTo + KeptOf(mode, amount, upTo)
  {
    if upTo == 0 {
      CountAll(Flags(dice));
    } else {
      MarkedFlags(dice, order, mode, amount, upTo - 1);
      var before, r := Marked(dice, order, mode, amount, upTo - 1), Marked(dice, order, mode, amount, upTo);
      var at := order[upTo - 1];
      assert before[at].kept;
      CountUpdate(Flags(before), at, r[at].kept);
      assert Flags(r) == Flags(before)[at := r[at].kept];
      assert Values(r) == Values(before);
    }
  }

  // Every kept value is at or beyond a mark, every other at or short of it.
  predicate Split(values: seq<int>, flags: seq<bool>, mark: int)
    requires |values| == |flags|
  {
    forall i :: 0 <= i < |values| ==> if flags[i] then values[i] >= mark else values[i] <= mark
  }

  lemma {:induction false} SplitIsBest(values: seq<int>, flags: seq<bool>, other: seq<bool>, mark: int)
    requires |values| == |flags| == |other| && Split(values, flags, mark)
    ensures Subtotal(values, flags) - mark * Count(flags) >= Subtotal(values, other) - mark * Count(other)
  {
    if values != [] {
      SplitIsBest(values[1..], flags[1..], other[1..], mark);
      assert Count(flags) == (if flags[0] then 1 else 0) + Count(flags[1..]);
      assert Count(other) == (if other[0] then 1 else 0) + Count(other[1..]);
      assert mark * (1 + Count(flags[1..])) == mark + mark * Count(flags[1..]);
      assert mark * (1 + Count(other[1..])) == mark + mark * Count(other[1..]);
    }
  }

  function Negated(values: seq<int>): (r: seq<int>)
    ensures |r| == |values| && forall i :: 0 <= i < |r| ==> r[i] == -values[i]
  {
    seq(|values|, i requires 0 <= i < |values| => -values[i])
  }

  lemma {:induction false} NegatedSubtotal(values: seq<int>, flags: seq<bool>)
    requires |values| == |flags|
    ensures Subtotal(Negated(values), flags) == -Subtotal(values, flags)
  {
    if values != [] {
      NegatedSubtotal(values[1..], flags[1..]);
      assert Negated(values)[1..] == Negated(values[1..]);
    }
  }

  // The best subtotal for a mode: the largest when the high dice stay, else the smallest.
  ghost predicate Optimal(values: seq<int>, flags: seq<bool>, high: bool) {
    && |values| == |flags|
    && forall other: seq<bool> :: |other| == |flags| && Count(other) == Count(flags) ==>
         if high then Subtotal(values, flags) >= Subtotal(values, other)
         else Subtotal(values, flags) <= Subtotal(values, other)
  }

  // Modes under which the high dice are the ones that stay.
  predicate HighStay(mode: Mode) {
    mode.KeepHigh? || mode.DropLow?
  }

  predicate AllKept(dice: seq<Die>) {
    forall i :: 0 <= i < |dice| ==> dice[i].kept
  }

  /** A selection keeps exactly the number asked for, touches no value, and the subtotal it
      leaves is the largest that many of the dice could give, or the smallest. */
  lemma SelectionIsOptimal(dice: seq<Die>, mode: Mode, amount: nat)
    requires AllKept(dice)
    ensures var r := Selected(dice, mode, amount);
            && Values(r) == Values(dice)
            && Count(Flags(r)) == KeptOf(mode, amount, |dice|)
            && Optimal(Values(dice), Flags(r), HighStay(mode))
  {
    var order := Order(dice, Descending(mode), |dice|);
    OrderIsSorted(dice, Descending(mode), |dice|);
    MarkedFlags(dice, order, mode, amount, |dice|);
    var r := Selected(dice, mode, amount);
    var values := if HighStay(mode) then Values(dice) else Negated(Values(dice));
    var mark := SelectionMark(dice, mode, amount, order, values);
    forall other: seq<bool> | |other| == |Flags(r)| && Count(other) == Count(Flags(r))
      ensures if HighStay(mode) then Subtotal(Values(dice), Flags(r)) >= Subtotal(Values(dice), other)
              else Subtotal(Values(dice), Flags(r)) <= Subtotal(Values(dice), other)
    {
      SplitIsBest(values, Flags(r), other, mark);
      NegatedSubtotal(Values(dice), Flags(r));
      NegatedSubtotal(Values(dice), other);
    }
  }

  // The value at the cut between what stays and what goes.
  lemma SelectionMark(dice: seq<Die>, mode: Mode, amount: nat, order: seq<nat>, values: seq<int>) returns (mark: int)
    requires AllKept(dice) && |order| == |dice| && Indices(order, |dice|)
    requires order == Order(dice, Descending(mode), |dice|)
    requires Permutes(order, |dice|) && Ranked(dice, Descending(mode), order)
    requires values == if HighStay(mode) then Values(dice) else Negated(Values(dice))
    requires forall p :: 0 <= p < |order| ==> Selected(dice, mode, amount)[order[p]].kept == Mark(mode, amount, p, |dice|)
    ensures Split(values, Flags(Selected(dice, mode, amount)), mark)
  {
    var r := Selected(dice, mode, amount);
    var cut := if amount < |dice| then amount else |dice| - 1;
    mark := if |dice| == 0 then 0 else values[order[cut]];
    forall k | 0 <= k < |dice|
      ensures if r[k].kept then values[k] >= mark else values[k] <= mark
    {
      assert k in order;
      var p :| 0 <= p < |order| && order[p] == k;
      assert p < cut ==> !Beats(dice, Descending(mode), order[cut], order[p]);
      assert cut < p ==> !Beats(dice, Descending(mode), order[p], order[cut]);
    }
  }

  /** Keeping the k highest and dropping the rest from the bottom leave the same subtotal, as
      do keeping the k lowest and dropping the rest from the top, ties or no ties. */
  lemma KeepAgreesWithDrop(dice: seq<Die>, k: nat)
    requires AllKept(dice) && k <= |dice|
    ensures Subtotal(Values(dice), Flags(Selected(dice, KeepHigh, k)))
         == Subtotal(Values(dice), Flags(Selected(dice, DropLow, |dice| - k)))
    ensures Subtotal(Values(dice), Flags(Selected(dice, KeepLow, k)))
         == Subtotal(Values(dice), Flags(Selected(dice, DropHigh, |dice| - k)))
  {
    SelectionIsOptimal(dice, KeepHigh, k);
    SelectionIsOptimal(dice, DropLow, |dice| - k);
    SelectionIsOptimal(dice, KeepLow, k);
    SelectionIsOptimal(dice, DropHigh, |dice| - k);
  }
}
