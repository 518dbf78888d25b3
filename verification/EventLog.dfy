/** The event log of the store: a counter per world, a table of events, and transactions that
    commit whole or leave nothing behind. */
module EventLog {
  import opened Wrappers

  datatype WorldRow = WorldRow(slug: string, activeScene: Id, eventSeq: int)

  // The two tables: worlds by id, and event bodies by world and sequence.
  datatype Tables = Tables(worlds: map<Id, WorldRow>, events: map<(Id, int), string>)

  predicate SlugTaken(t: Tables, id: Id, slug: string) {
    exists other | other in t.worlds :: other != id && t.worlds[other].slug == slug
  }

  /** An insert takes the row as given; an update keeps the stored counter. */
  function PutWorld(t: Tables, id: Id, row: WorldRow): Outcome<Tables> {
    if SlugTaken(t, id, row.slug) then Fail
    else if id in t.worlds then Ok(t.(worlds := t.worlds[id := row.(eventSeq := t.worlds[id].eventSeq)]))
    else Ok(t.(worlds := t.worlds[id := row]))
  }

  /** Raise the counter, then store the event under the number it reached. */
  function AppendEvent(t: Tables, id: Id, body: string): Outcome<Tables> {
    if id !in t.worlds then Fail
    else
      var next := t.worlds[id].eventSeq + 1;
      if (id, next) in t.events then Fail
      else Ok(Tables(t.worlds[id := t.worlds[id].(eventSeq := next)], t.events[(id, next) := body]))
  }

  // One statement of a transaction; Abort is any other error its function returns.
  datatype Op = Put(id: Id, row: WorldRow) | Append(id: Id, body: string) | Abort

  function Perform(t: Tables, op: Op): Outcome<Tables> {
    match op
    case Put(id, row) => PutWorld(t, id, row)
    case Append(id, body) => AppendEvent(t, id, body)
    case Abort => Fail
  }

  function PerformAll(t: Tables, ops: seq<Op>): Outcome<Tables>
    decreases |ops|
  {
    if ops == [] then Ok(t)
    else match Perform(t, ops[0])
      case Fail => Fail
      case Ok(u) => PerformAll(u, ops[1..])
  }

  function Transact(t: Tables, ops: seq<Op>): Tables {
    match PerformAll(t, ops)
    case Fail => t
    case Ok(u) => u
  }

  function TransactAll(t: Tables, transactions: seq<seq<Op>>): Tables
    decreases |transactions|
  {
    if transactions == [] then t else TransactAll(Transact(t, transactions[0]), transactions[1..])
  }

  /** The store as it is changed in place. */
  class Store {
    var worlds: map<Id, WorldRow>
    var events: map<(Id, int), string>

    function View(): Tables
      reads this
    {
      Tables(worlds, events)
    }

    constructor ()
      ensures View() == Tables(map[], map[])
    {
      worlds, events := map[], map[];
    }

    method Apply(op: Op) returns (ok: bool)
      modifies this
      ensures ok == Perform(old(View()), op).Ok?
      ensures ok ==> Perform(old(View()), op) == Ok(View())
      ensures !ok ==> View() == old(View())
    {
      match op
      case Put(id, row) =>
        if SlugTaken(View(), id, row.slug) {
          return false;
        }
        var kept := if id in worlds then row.(eventSeq := worlds[id].eventSeq) else row;
        worlds := worlds[id := kept];
        ok := true;
      case Append(id, body) =>
        if id !in worlds {
          return false;
        }
        var next := worlds[id].eventSeq + 1;
        if (id, next) in events {
          return false;
        }
        worlds := worlds[id := worlds[id].(eventSeq := next)];
        events := events[(id, next) := body];
        ok := true;
      case Abort =>
        ok := false;
    }

    /** Run the statements in order; the first failure rolls everything back. */
    method Tx(ops: seq<Op>) returns (ok: bool)
      modifies this
      ensures ok == PerformAll(old(View()), ops).Ok?
      ensures View() == Transact(old(View()), ops)
    {
      var worldsBefore, eventsBefore := worlds, events;
      var i := 0;
      while i < |ops|
        invariant 0 <= i <= |ops|
        invariant PerformAll(old(View()), ops) == PerformAll(View(), ops[i..])
      {
        assert ops[i..][0] == ops[i] && ops[i..][1..] == ops[i + 1..];
        ok := Apply(ops[i]);
        if !ok {
          worlds, events := worldsBefore, eventsBefore;
          return false;
        }
        i := i + 1;
      }
      assert ops[|ops|..] == [];
      ok := true;
    }
  }

  // ----- The shape of the log -----

  predicate WorldShape(t: Tables, id: Id) {
    id in t.worlds && 0 <= t.worlds[id].eventSeq
    && (forall n | 1 <= n <= t.worlds[id].eventSeq :: (id, n) in t.events)
    && (forall key | key in t.events :: key.0 == id ==> 1 <= key.1 <= t.worlds[id].eventSeq)
  }

  /** Every world's events are numbered exactly 1 to its counter, and no event lacks a world. */
  predicate Shaped(t: Tables) {
    && (forall id | id in t.worlds :: WorldShape(t, id))
    && (forall key | key in t.events :: key.0 in t.worlds)
  }

  // Worlds are created with a counter of zero; a write-back may carry any counter.
  predicate CreatesAtZero(t: Tables, op: Op) {
    op.Put? && op.id !in t.worlds ==> op.row.eventSeq == 0
  }

  predicate AllCreateAtZero(t: Tables, ops: seq<Op>)
    decreases |ops|
  {
    ops == [] || (CreatesAtZero(t, ops[0]) && (Perform(t, ops[0]).Ok? ==> AllCreateAtZero(Perform(t, ops[0]).value, ops[1..])))
  }

  predicate EveryTransactionCreatesAtZero(t: Tables, transactions: seq<seq<Op>>)
    decreases |transactions|
  {
    transactions == [] || (AllCreateAtZero(t, transactions[0])
                           && EveryTransactionCreatesAtZero(Transact(t, transactions[0]), transactions[1..]))
  }

  lemma AppendKeepsShape(t: Tables, id: Id, body: string)
    requires Shaped(t) && id in t.worlds
    ensures AppendEvent(t, id, body).Ok? && Shaped(AppendEvent(t, id, body).value)
  {
    assert WorldShape(t, id);
    var next := t.worlds[id].eventSeq + 1;
    assert (id, next) !in t.events;
    var u := AppendEvent(t, id, body).value;
    forall other | other in u.worlds
      ensures WorldShape(u, other)
    {
      assert WorldShape(t, other);
    }
  }

  lemma PutKeepsShape(t: Tables, id: Id, row: WorldRow)
    requires Shaped(t) && PutWorld(t, id, row).Ok?
    ensures Shaped(PutWorld(t, id, row).value) <==> id in t.worlds || row.eventSeq == 0
  {
    var u := PutWorld(t, id, row).value;
    forall other | other in t.worlds
      ensures WorldShape(u, other)
    {
      assert WorldShape(t, other);
    }
    if id !in t.worlds {
      assert (id, 1) !in u.events;
      assert WorldShape(u, id) <==> row.eventSeq == 0;
    }
  }

  lemma PerformKeepsShape(t: Tables, op: Op)
    requires Shaped(t) && CreatesAtZero(t, op) && Perform(t, op).Ok?
    ensures Shaped(Perform(t, op).value)
  {
    match op
    case Put(id, row) => PutKeepsShape(t, id, row);
    case Append(id, body) => AppendKeepsShape(t, id, body);
  }

  lemma {:induction false} PerformAllKeepsShape(t: Tables, ops: seq<Op>)
    requires Shaped(t) && AllCreateAtZero(t, ops)
    ensures PerformAll(t, ops).Ok? ==> Shaped(PerformAll(t, ops).value)
    decreases |ops|
  {
    if ops != [] && Perform(t, ops[0]).Ok? {
      PerformKeepsShape(t, ops[0]);
      PerformAllKeepsShape(Perform(t, ops[0]).value, ops[1..]);
    }
  }

  /** Over every run of transactions, committed or rolled back, write-backs of a world
      included, a log that starts in shape stays in shape. */
  lemma {:induction false} RunsKeepShape(t: Tables, transactions: seq<seq<Op>>)
    requires Shaped(t) && EveryTransactionCreatesAtZero(t, transactions)
    ensures Shaped(TransactAll(t, transactions))
    decreases |transactions|
  {
    if transactions != [] {
      PerformAllKeepsShape(t, transactions[0]);
      RunsKeepShape(Transact(t, transactions[0]), transactions[1..]);
    }
  }

  // ----- The log only grows -----

  // Every event of one log is in the other, unchanged.
  predicate Extends(t: Tables, u: Tables) {
    forall key | key in t.events :: key in u.events && u.events[key] == t.events[key]
  }

  lemma {:induction false} PerformAllOnlyAppends(t: Tables, ops: seq<Op>)
    ensures PerformAll(t, ops).Ok? ==> Extends(t, PerformAll(t, ops).value)
    decreases |ops|
  {
    if ops != [] && Perform(t, ops[0]).Ok? {
      assert Extends(t, Perform(t, ops[0]).value);
      PerformAllOnlyAppends(Perform(t, ops[0]).value, ops[1..]);
    }
  }

  /** Over every run of transactions, no event is ever removed or rewritten. */
  lemma {:induction false} RunsOnlyAppend(t: Tables, transactions: seq<seq<Op>>)
    ensures Extends(t, TransactAll(t, transactions))
    decreases |transactions|
  {
    if transactions != [] {
      PerformAllOnlyAppends(t, transactions[0]);
      RunsOnlyAppend(Transact(t, transactions[0]), transactions[1..]);
    }
  }

  // ----- Slugs are unique -----

  predicate SlugsDistinct(t: Tables) {
    forall a, b :: a in t.worlds && b in t.worlds && t.worlds[a].slug == t.worlds[b].slug ==> a == b
  }

  lemma PerformKeepsSlugs(t: Tables, op: Op)
    requires SlugsDistinct(t) && Perform(t, op).Ok?
    ensures SlugsDistinct(Perform(t, op).value)
  {
  }

  lemma {:induction false} PerformAllKeepsSlugs(t: Tables, ops: seq<Op>)
    requires SlugsDistinct(t) && PerformAll(t, ops).Ok?
    ensures SlugsDistinct(PerformAll(t, ops).value)
    decreases |ops|
  {
    if ops != [] {
      PerformKeepsSlugs(t, ops[0]);
      PerformAllKeepsSlugs(Perform(t, ops[0]).value, ops[1..]);
    }
  }

  /** Over every run of transactions no two worlds come to share a slug. */
  lemma {:induction false} RunsKeepSlugsDistinct(t: Tables, transactions: seq<seq<Op>>)
    requires SlugsDistinct(t)
    ensures SlugsDistinct(TransactAll(t, transactions))
    decreases |transactions|
  {
    if transactions != [] {
      if PerformAll(t, transactions[0]).Ok? {
        PerformAllKeepsSlugs(t, transactions[0]);
      }
      RunsKeepSlugsDistinct(Transact(t, transactions[0]), transactions[1..]);
    }
  }

  // ----- Reading the log -----

  function Above(t: Tables, id: Id, from: int): (r: set<int>)
    ensures forall n :: n in r <==> (id, n) in t.events && n > from
  {
    set key | key in t.events && key.0 == id && key.1 > from :: key.1
  }

  // What ORDER BY makes of the rows selected: their numbers, each once, ascending.
  ghost predicate Ascending(rows: seq<int>, keys: set<int>) {
    && (forall i, j :: 0 <= i < j < |rows| ==> rows[i] < rows[j])
    && (forall n :: n in rows <==> n in keys)
  }

  function Limit(limit: int): nat {
    if limit <= 0 then DEFAULT_LIMIT else limit
  }

  predicate AllStored(t: Tables, id: Id, rows: seq<int>) {
    forall i :: 0 <= i < |rows| ==> (id, rows[i]) in t.events
  }

  // The rows read: each sequence with the body stored under it.
  function Entries(t: Tables, id: Id, rows: seq<int>): (r: seq<(int, string)>)
    requires AllStored(t, id, rows)
    ensures |r| == |rows| && forall i :: 0 <= i < |r| ==> r[i] == (rows[i], t.events[(id, rows[i])])
  {
    seq(|rows|, i requires 0 <= i < |rows| => (rows[i], t.events[(id, rows[i])]))
  }

  /** The events above one, in order, up to the limit. */
  ghost predicate IsEventsSince(t: Tables, id: Id, from: int, limit: int, read: seq<(int, string)>) {
    exists rows ::
      && Ascending(rows, Above(t, id, from))
      && AllStored(t, id, Take(rows, Limit(limit)))
      && read == Entries(t, id, Take(rows, Limit(limit)))
  }

  function Count(from: int, to: int): (r: seq<int>)
    ensures |r| == (if from > to then 0 else to - from + 1)
    ensures forall i :: 0 <= i < |r| ==> r[i] == from + i
  {
    if from > to then [] else seq(to - from + 1, i => from + i)
  }

  // Ascending rows without a gap are a count.
  lemma {:induction false} AscendingRange(rows: seq<int>, from: int, to: int)
    requires forall i, j :: 0 <= i < j < |rows| ==> rows[i] < rows[j]
    requires forall n :: n in rows <==> from <= n <= to
    ensures rows == Count(from, to)
    decreases |rows|
  {
    assert rows != [] ==> rows[0] in rows;
    if from <= to {
      assert from in rows;
      var at :| 0 <= at < |rows| && rows[at] == from;
      assert rows[0] in rows;
      assert at == 0;
      forall n
        ensures n in rows[1..] <==> from + 1 <= n <= to
      {
        if n in rows[1..] {
          var i :| 0 <= i < |rows| - 1 && rows[1..][i] == n;
          assert rows[i + 1] in rows;
        }
        if from + 1 <= n <= to {
          assert n in rows;
          var i :| 0 <= i < |rows| && rows[i] == n;
          assert rows[1..][i - 1] == n;
        }
      }
      AscendingRange(rows[1..], from + 1, to);
    }
  }

  function Counter(t: Tables, id: Id): int {
    if id in t.worlds then t.worlds[id].eventSeq else 0
  }

  // The sequences of the suffix above a point.
  function Suffix(t: Tables, id: Id, from: int): seq<int> {
    Count(if from < 0 then 1 else from + 1, Counter(t, id))
  }

  lemma SuffixIsAbove(t: Tables, id: Id, from: int)
    requires Shaped(t)
    ensures AllStored(t, id, Suffix(t, id, from)) && Ascending(Suffix(t, id, from), Above(t, id, from))
  {
    assert id in t.worlds ==> WorldShape(t, id);
    var keys, log, first := Above(t, id, from), Suffix(t, id, from), if from < 0 then 1 else from + 1;
    forall n
      ensures n in log <==> n in keys
    {
      if n in keys {
        assert (id, n).0 in t.worlds;
        assert log[n - first] == n;
      }
    }
  }

  /** In shape, reading from any point gives the first entries of the suffix above it, each
      sequence with the body stored for it. */
  lemma EventsSinceIsSuffix(t: Tables, id: Id, from: int, limit: int, read: seq<(int, string)>)
    requires Shaped(t)
    ensures AllStored(t, id, Take(Suffix(t, id, from), Limit(limit)))
    ensures IsEventsSince(t, id, from, limit, read) <==> read == Entries(t, id, Take(Suffix(t, id, from), Limit(limit)))
    ensures IsEventsSince(t, id, from, limit, read) ==>
              var all, most := |Suffix(t, id, from)|, if limit <= 0 then 1000 else limit;
              |read| == if all < most then all else most
  {
    SuffixIsAbove(t, id, from);
    var log, first := Suffix(t, id, from), if from < 0 then 1 else from + 1;
    forall rows | Ascending(rows, Above(t, id, from))
      ensures rows == log
    {
      assert forall n :: n in rows <==> n in log;
      assert forall n :: n in log <==> first <= n <= Counter(t, id) by {
        forall n | first <= n <= Counter(t, id) ensures n in log {
          assert log[n - first] == n;
        }
      }
      AscendingRange(rows, first, Counter(t, id));
    }
  }

  /** What is appended is what is read: reading from where the log ended gives the one new entry,
      under the next number and with its body, and every earlier entry is read as before. */
  lemma AppendedReadsBack(t: Tables, id: Id, body: string, limit: int, read: seq<(int, string)>)
    requires Shaped(t) && id in t.worlds
    ensures AppendEvent(t, id, body).Ok?
    ensures var u, n := AppendEvent(t, id, body).value, Counter(t, id);
            && (IsEventsSince(u, id, n, limit, read) <==> read == [(n + 1, body)])
            && forall m :: 1 <= m <= n ==> (id, m) in u.events && u.events[(id, m)] == t.events[(id, m)]
  {
    AppendKeepsShape(t, id, body);
    var u, n := AppendEvent(t, id, body).value, Counter(t, id);
    assert WorldShape(t, id) && WorldShape(u, id);
    assert Counter(u, id) == n + 1;
    EventsSinceIsSuffix(u, id, n, limit, read);
    assert Suffix(u, id, n) == [n + 1];
    assert Entries(u, id, [n + 1]) == [(n + 1, body)];
  }
}
