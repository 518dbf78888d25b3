/** The turn order: higher initiative first, then by name, and listing order where both agree. */
module CombatOrder {
  datatype Combatant = Combatant(id: string, name: string, initiative: int, disposition: string)

  // ----- Comparing -----

  predicate Less(a: string, b: string) {
    b != "" && (a == "" || a[0] < b[0] || (a[0] == b[0] && Less(a[1..], b[1..])))
  }

  lemma {:induction false} LessIsStrict(a: string, b: string)
    ensures !(Less(a, b) && Less(b, a))
    ensures Less(a, b) || Less(b, a) || a == b
    ensures a == b ==> !Less(a, b)
  {
    if a != "" && b != "" {
      LessIsStrict(a[1..], b[1..]);
      assert a == [a[0]] + a[1..] && b == [b[0]] + b[1..];
    }
  }

  lemma {:induction false} LessIsTransitive(a: string, b: string, c: string)
    ensures Less(a, b) && Less(b, c) ==> Less(a, c)
  {
    if a != "" && b != "" && c != "" {
      LessIsTransitive(a[1..], b[1..], c[1..]);
    }
  }

  predicate Before(a: Combatant, b: Combatant) {
    if a.initiative != b.initiative then a.initiative > b.initiative else Less(a.name, b.name)
  }

  // Places in the list: strictly before, or level and listed earlier.
  predicate Ahead(list: seq<Combatant>, i: nat, j: nat)
    requires i < |list| && j < |list|
  {
    Before(list[i], list[j]) || (!Before(list[j], list[i]) && i < j)
  }

  lemma AheadIsTotal(list: seq<Combatant>, i: nat, j: nat)
    requires i < |list| && j < |list|
    ensures !(Ahead(list, i, j) && Ahead(list, j, i))
    ensures i != j ==> Ahead(list, i, j) || Ahead(list, j, i)
  {
    LessIsStrict(list[i].name, list[j].name);
  }

  lemma AheadIsTransitive(list: seq<Combatant>, i: nat, j: nat, k: nat)
    requires i < |list| && j < |list| && k < |list|
    ensures Ahead(list, i, j) && Ahead(list, j, k) ==> Ahead(list, i, k)
  {
    var a, b, c := list[i].name, list[j].name, list[k].name;
    LessIsStrict(a, b);
    LessIsStrict(b, c);
    LessIsStrict(a, c);
    LessIsTransitive(a, b, c);
  }

  // ----- The stable sorted permutation -----

  predicate Places(order: seq<nat>, n: nat) {
    forall p :: 0 <= p < |order| ==> order[p] < n
  }

  // Each place is ahead of every later one.
  predicate InOrder(list: seq<Combatant>, order: seq<nat>) {
    Places(order, |list|) && forall p, q :: 0 <= p < q < |order| ==> Ahead(list, order[p], order[q])
  }

  function At(list: seq<Combatant>, order: seq<nat>): (r: seq<Combatant>)
    requires Places(order, |list|)
    ensures |r| == |order|
  {
    seq(|order|, p requires 0 <= p < |order| => list[order[p]])
  }

  // Every place of the list once, each ahead of the next: a permutation, sorted and stable.
  predicate Sorts(list: seq<Combatant>, order: seq<nat>) {
    InOrder(list, order) && forall i :: 0 <= i < |list| ==> i in order
  }

  /** A result of stably sorting the list. */
  ghost predicate IsStableSort(list: seq<Combatant>, result: seq<Combatant>) {
    exists order: seq<nat> :: Sorts(list, order) && result == At(list, order)
  }

  // ----- There is one -----

  function Insert(list: seq<Combatant>, order: seq<nat>, x: nat): (r: seq<nat>)
    requires Places(order, |list|) && x < |list|
    ensures Places(r, |list|) && |r| == |order| + 1
  {
    if order == [] then [x]
    else
      var last := order[|order| - 1];
      if Ahead(list, x, last) then Insert(list, order[..|order| - 1], x) + [last] else order + [x]
  }

  function Order(list: seq<Combatant>, n: nat): (r: seq<nat>)
    requires n <= |list|
    ensures Places(r, |list|) && |r| == n
  {
    if n == 0 then [] else Insert(list, Order(list, n - 1), n - 1)
  }

  function Sorted(list: seq<Combatant>): (r: seq<Combatant>)
    ensures |r| == |list|
  {
    At(list, Order(list, |list|))
  }

  lemma {:induction false} InsertMembers(list: seq<Combatant>, order: seq<nat>, x: nat, i: nat)
    requires Places(order, |list|) && x < |list|
    ensures i in Insert(list, order, x) <==> i in order || i == x
    decreases |order|
  {
    if order != [] {
      var front := order[..|order| - 1];
      assert order == front + [order[|order| - 1]];
      InsertMembers(list, front, x, i);
    }
  }

  lemma {:induction false} InsertInOrder(list: seq<Combatant>, order: seq<nat>, x: nat)
    requires InOrder(list, order) && x < |list| && x !in order
    ensures InOrder(list, Insert(list, order, x))
    decreases |order|
  {
    if order != [] {
      var front, last := order[..|order| - 1], order[|order| - 1];
      if Ahead(list, x, last) {
        InsertInOrder(list, front, x);
        var r := Insert(list, front, x);
        forall p | 0 <= p < |r| ensures Ahead(list, r[p], last) {
          InsertMembers(list, front, x, r[p]);
          assert r[p] in r;
          if r[p] != x {
            var q :| 0 <= q < |front| && front[q] == r[p];
            assert order[q] == r[p];
          }
        }
      } else {
        AheadOfNew(list, order, x);
      }
    }
  }

  lemma AheadOfNew(list: seq<Combatant>, order: seq<nat>, x: nat)
    requires InOrder(list, order) && x < |list| && x !in order && order != []
    requires !Ahead(list, x, order[|order| - 1])
    ensures forall p :: 0 <= p < |order| ==> Ahead(list, order[p], x)
  {
    var last := order[|order| - 1];
    AheadIsTotal(list, last, x);
    forall p | 0 <= p < |order| ensures Ahead(list, order[p], x) {
      AheadIsTransitive(list, order[p], last, x);
    }
  }

  lemma {:induction false} OrderSorts(list: seq<Combatant>, n: nat)
    requires n <= |list|
    ensures InOrder(list, Order(list, n)) && forall i: nat :: i in Order(list, n) <==> i < n
    decreases n
  {
    if n > 0 {
      OrderSorts(list, n - 1);
      InsertInOrder(list, Order(list, n - 1), n - 1);
      forall i: nat ensures i in Order(list, n) <==> i < n {
        InsertMembers(list, Order(list, n - 1), n - 1, i);
      }
    }
  }

  // ----- There is only one -----

  lemma {:induction false} SameMembersSameOrder(list: seq<Combatant>, a: seq<nat>, b: seq<nat>)
    requires InOrder(list, a) && InOrder(list, b) && forall i: nat :: i in a <==> i in b
    ensures a == b
    decreases |a|
  {
    EmptyTogether(a, b);
    if a != [] {
      SameFirst(list, a, b);
      forall i: nat ensures i in a[1..] <==> i in b[1..] {
        Rest(list, a, i);
        Rest(list, b, i);
      }
      SameMembersSameOrder(list, a[1..], b[1..]);
      assert a == [a[0]] + a[1..] && b == [b[0]] + b[1..];
    }
  }

  lemma EmptyTogether(a: seq<nat>, b: seq<nat>)
    requires forall i: nat :: i in a <==> i in b
    ensures a == [] <==> b == []
  {
    if a != [] {
      assert a[0] in b;
    }
    if b != [] {
      assert b[0] in a;
    }
  }

  lemma SameFirst(list: seq<Combatant>, a: seq<nat>, b: seq<nat>)
    requires InOrder(list, a) && InOrder(list, b) && a != [] && b != [] && a[0] in b && b[0] in a
    ensures a[0] == b[0]
  {
    AheadIsTotal(list, a[0], b[0]);
  }

  // Nothing is in an order twice.
  lemma Rest(list: seq<Combatant>, order: seq<nat>, i: nat)
    requires InOrder(list, order) && order != []
    ensures i in order[1..] <==> i in order && i != order[0]
  {
    AheadIsTotal(list, order[0], order[0]);
    assert order == [order[0]] + order[1..];
    if i in order[1..] {
      var p :| 0 <= p < |order| - 1 && order[1..][p] == i;
      assert Ahead(list, order[0], order[p + 1]);
    }
  }

  /** Sorting the list stably has exactly one result, and it is a rearrangement of the list. */
  lemma StableSortIsUnique(list: seq<Combatant>, result: seq<Combatant>)
    ensures IsStableSort(list, result) <==> result == Sorted(list)
    ensures IsStableSort(list, result) ==> multiset(result) == multiset(list)
  {
    var order := Order(list, |list|);
    OrderSorts(list, |list|);
    assert Sorts(list, order);
    if IsStableSort(list, result) {
      var other: seq<nat> :| Sorts(list, other) && result == At(list, other);
      forall i: nat ensures i in other <==> i in order {
        assert i in other ==> exists p :: 0 <= p < |other| && other[p] == i;
      }
      SameMembersSameOrder(list, other, order);
    }
    OrderIsRearrangement(list, |list|);
    assert list[..|list|] == list;
  }

  lemma {:induction false} InsertRearranges(list: seq<Combatant>, order: seq<nat>, x: nat)
    requires Places(order, |list|) && x < |list|
    ensures multiset(At(list, Insert(list, order, x))) == multiset(At(list, order)) + multiset{list[x]}
    decreases |order|
  {
    if order == [] {
      assert At(list, [x]) == [list[x]];
    } else {
      var front, last := order[..|order| - 1], order[|order| - 1];
      assert At(list, order) == At(list, front) + [list[last]];
      if Ahead(list, x, last) {
        InsertRearranges(list, front, x);
        assert At(list, Insert(list, front, x) + [last]) == At(list, Insert(list, front, x)) + [list[last]];
      } else {
        assert At(list, order + [x]) == At(list, order) + [list[x]];
      }
    }
  }

  lemma {:induction false} OrderIsRearrangement(list: seq<Combatant>, n: nat)
    requires n <= |list|
    ensures multiset(At(list, Order(list, n))) == multiset(list[..n])
    decreases n
  {
    if n > 0 {
      OrderIsRearrangement(list, n - 1);
      InsertRearranges(list, Order(list, n - 1), n - 1);
      assert list[..n] == list[..n - 1] + [list[n - 1]];
    }
  }

  /** The result takes each place of the list once, and combatants that neither precede each other
      keep the order they were listed in. */
  lemma TiesKeepListingOrder(list: seq<Combatant>, i: nat, j: nat)
    requires i < j < |list|
    ensures var order := Order(list, |list|);
            && order[i] < |list| && order[j] < |list|
            && Sorted(list)[i] == list[order[i]] && Sorted(list)[j] == list[order[j]]
            && (list[order[i]].initiative == list[order[j]].initiative && list[order[i]].name == list[order[j]].name ==>
                  order[i] < order[j])
  {
    OrderSorts(list, |list|);
    var order := Order(list, |list|);
    assert Ahead(list, order[i], order[j]);
    LessIsStrict(list[order[i]].name, list[order[j]].name);
  }

  // Two texts agree up to a place, where the first ends or has the smaller character.
  predicate DiffersAt(a: string, b: string, k: nat) {
    k <= |a| && k < |b| && a[..k] == b[..k] && (k == |a| || a[k] < b[k])
  }

  lemma {:induction false} LessIsLexicographic(a: string, b: string)
    ensures Less(a, b) <==> exists k :: 0 <= k < |b| && DiffersAt(a, b, k)
  {
    if a == "" || b == "" {
      if b != "" {
        assert a[..0] == b[..0];
        assert DiffersAt(a, b, 0);
      }
    } else {
      LessIsLexicographic(a[1..], b[1..]);
      assert a == [a[0]] + a[1..] && b == [b[0]] + b[1..];
      if Less(a, b) {
        if a[0] < b[0] {
          assert a[..0] == b[..0];
          assert DiffersAt(a, b, 0);
        } else {
          var k :| 0 <= k < |b[1..]| && DiffersAt(a[1..], b[1..], k);
          assert a[..k + 1] == [a[0]] + a[1..][..k] && b[..k + 1] == [b[0]] + b[1..][..k];
          assert DiffersAt(a, b, k + 1);
        }
      }
      if exists k :: 0 <= k < |b| && DiffersAt(a, b, k) {
        var k :| 0 <= k < |b| && DiffersAt(a, b, k);
        LessFromDifference(a, b, k);
      }
    }
  }

  lemma LessFromDifference(a: string, b: string, k: nat)
    requires a != "" && b != "" && DiffersAt(a, b, k)
    requires (exists j :: 0 <= j < |b[1..]| && DiffersAt(a[1..], b[1..], j)) ==> Less(a[1..], b[1..])
    ensures Less(a, b)
  {
    if k > 0 {
      assert a[0] == a[..k][0] == b[..k][0] == b[0];
      assert a[1..][..k - 1] == a[..k][1..] && b[1..][..k - 1] == b[..k][1..];
      assert DiffersAt(a[1..], b[1..], k - 1);
    }
  }

  /** Whoever acts later never has the higher initiative, and at equal initiative never a name
      that comes before in the order of characters. */
  lemma SortedDescends(list: seq<Combatant>, i: nat, j: nat)
    requires i < j < |list|
    ensures var first, later := Sorted(list)[i], Sorted(list)[j];
            && !Before(later, first)
            && first.initiative >= later.initiative
            && (first.initiative == later.initiative ==> forall k :: !DiffersAt(later.name, first.name, k))
  {
    OrderSorts(list, |list|);
    var order := Order(list, |list|);
    assert Ahead(list, order[i], order[j]);
    LessIsStrict(list[order[i]].name, list[order[j]].name);
    LessIsLexicographic(list[order[j]].name, list[order[i]].name);
  }
}
