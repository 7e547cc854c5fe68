/** Concrete inputs on which the system does not do what one might hope: a cache that lists an author backwards, a
    handshake that falls short, and entries lost out of causal order. */
module Counterexamples {
  import opened Clocks
  import opened Entries
  import opened Flooding
  import opened Runs
  import opened Convergence
  import opened Listings
  import opened Deltas
  import opened Batches
  import opened Chains

  // Author 2 books B1; author 1 books A1; author 2 receives A1 and books B2.
  const A1: Entry := Entry(map[1 := 1], Data(1, 10, map[]))
  const B1: Entry := Entry(map[2 := 1], Data(2, 20, map[]))
  const B2: Entry := Entry(map[1 := 1, 2 := 2], Data(2, 30, map[]))

  const FRESH: Replica := Replica(Cache, map[], [])
  const FULL: Replica := Replica(Cache, map[1 := 1, 2 := 2], [B1, A1, B2])

  lemma AdmitNext(r: Replica, e: Entry)
    requires IsNext(e.clock, r.clock, e.data.id) && !HasStamp(r.saved, e.clock)
    ensures Admit(r, e) == Replica(r.plugin, Merge(r.clock, e.clock), r.saved + [e])
  {}

  /** The full store is what journal 2 really has after these steps. */
  lemma FullIsReachable()
    ensures Stamped(FRESH, B1.data) == B1 && Stamped(FRESH, A1.data) == A1
    ensures Stamped(Admit(Admit(FRESH, B1), A1), B2.data) == B2
    ensures Admit(Admit(Admit(FRESH, B1), A1), B2) == FULL
  {
    AdmitNext(FRESH, B1);
    var r1 := Replica(Cache, map[2 := 1], [B1]);
    assert Merge(map[], B1.clock) == map[2 := 1];
    assert Admit(FRESH, B1) == r1;
    assert 1 in A1.clock && 1 !in B1.clock;
    AdmitNext(r1, A1);
    var r2 := Replica(Cache, map[1 := 1, 2 := 1], [B1, A1]);
    assert Merge(r1.clock, A1.clock) == r2.clock;
    assert Admit(r1, A1) == r2;
    assert B2.clock[2] == 2 && A1.clock != B2.clock by { assert 2 !in A1.clock; }
    AdmitNext(r2, B2);
    assert Merge(r2.clock, B2.clock) == FULL.clock;
  }

  // How an ordered map of stamps lists them

  lemma SortedPair(a: Id, b: Id)
    requires a < b
    ensures SortedIds({a, b}) == [a, b]
  {
    assert {a, b} - {a} == {b};
    SortedOne(b);
  }

  lemma SortedOne(a: Id)
    ensures SortedIds({a}) == [a]
  {
    assert {a} - {a} == {};
  }

  lemma FlatOfThree()
    ensures Flat(A1.clock) == [1, 1]
    ensures Flat(B2.clock) == [1, 1, 2, 2]
    ensures Flat(B1.clock) == [2, 1]
  {
    SortedOne(1);
    SortedOne(2);
    SortedPair(1, 2);
    assert A1.clock.Keys == {1} && B1.clock.Keys == {2} && B2.clock.Keys == {1, 2};
    assert [1, 2][1..] == [2] && [2][1..] == [] && [1][1..] == [];
    var c := B2.clock;
    assert FlatOver([2], c) == [2, 2];
    assert FlatOver([1, 2], c) == [1, 1] + [2, 2];
  }

  lemma LexOrderOfThree()
    ensures LexLess(A1.clock, B2.clock) && LexLess(B2.clock, B1.clock) && LexLess(A1.clock, B1.clock)
  {
    FlatOfThree();
    var s, t := [1, 1], [1, 1, 2, 2];
    assert s[1..] == [1] && t[1..] == [1, 2, 2];
    assert [1][1..] == [] && [1, 2, 2][1..] == [2, 2];
    assert SeqLess([], [2, 2]);
    assert SeqLess([1], [1, 2, 2]);
    assert SeqLess(s, t);
  }

  lemma ListsInOrder(m: map<Clock, Data>, x: Entry, y: Entry, z: Entry)
    requires LexLess(x.clock, y.clock) && LexLess(y.clock, z.clock) && LexLess(x.clock, z.clock)
    requires m == map[x.clock := x.data, y.clock := y.data, z.clock := z.data]
    requires x.clock != y.clock && y.clock != z.clock && x.clock != z.clock
    ensures MapListing(m) == [x, y, z]
  {
    FirstIs(m.Keys, x.clock);
    var m1 := m - {x.clock};
    assert m1.Keys == {y.clock, z.clock};
    FirstIs(m1.Keys, y.clock);
    var m2 := m1 - {y.clock};
    assert m2.Keys == {z.clock};
    FirstIs(m2.Keys, z.clock);
    assert m2 - {z.clock} == map[];
    assert MapListing(m2) == [z];
    assert MapListing(m1) == [y, z];
  }

  lemma FirstIs(s: set<Clock>, x: Clock)
    requires x in s && forall y | y in s :: x == y || LexLess(x, y)
    ensures First(s) == x
  {
    LexLessIsTotalOrder(x, First(s), x);
  }

  lemma CacheMapOfThree(x: Entry, y: Entry, z: Entry)
    ensures CacheMap([x, y, z]) == map[][x.clock := x.data][y.clock := y.data][z.clock := z.data]
  {
    assert [x, y, z][..2] == [x, y] && [x, y][..1] == [x] && [x][..0] == [];
    assert CacheMap([x]) == map[][x.clock := x.data];
    assert CacheMap([x, y]) == CacheMap([x])[y.clock := y.data];
  }

  /** A cache lists author 2's entries backwards. */
  lemma CacheListsBackwards()
    ensures Listing(FULL) == [A1, B2, B1]
    ensures !Increasing(Listing(FULL))
  {
    LexOrderOfThree();
    assert 1 !in B1.clock && 2 !in A1.clock && 1 in B2.clock && 2 in B2.clock;
    CacheMapOfThree(B1, A1, B2);
    ListsInOrder(CacheMap(FULL.saved), A1, B2, B1);
    assert Listing(FULL)[1] == B2 && Listing(FULL)[2] == B1;
    assert Seq(B2) == 2 && Seq(B1) == 1;
  }

  lemma PullA1()
    ensures Admit(FRESH, A1) == Replica(Cache, map[1 := 1], [A1])
  {
    AdmitNext(FRESH, A1);
    assert Merge(map[], A1.clock) == map[1 := 1];
  }

  lemma RefuseB2ThenPullB1(r: Replica)
    requires r == Replica(Cache, map[1 := 1], [A1])
    ensures Admit(r, B2) == r
    ensures Admit(r, B1) == Replica(Cache, map[1 := 1, 2 := 1], [A1, B1])
  {
    assert 2 !in r.clock && B2.clock[2] == 2;
    assert 1 !in B1.clock;
    AdmitNext(r, B1);
    assert Merge(r.clock, B1.clock) == map[1 := 1, 2 := 1];
  }

  lemma AdmitThree(r: Replica, x: Entry, y: Entry, z: Entry)
    ensures AdmitAll(r, [x, y, z]) == Admit(Admit(Admit(r, x), y), z)
  {
    assert [x, y, z][1..] == [y, z] && [y, z][1..] == [z] && [z][1..] == [];
    var q := Admit(Admit(r, x), y);
    assert AdmitAll(q, [z]) == Admit(q, z);
    assert AdmitAll(Admit(r, x), [y, z]) == AdmitAll(q, [z]);
  }

  /** So a handshake that pulls a gap-free cache into an empty journal can lose an entry, and the two
      clocks stay different: ascending order per author is needed even for the clocks to converge. */
  lemma CacheHandshakeFallsShort()
    ensures Query(Listing(FULL), FRESH.clock) == [A1, B2, B1]
    ensures AdmitAll(FRESH, [A1, B2, B1]) == Replica(Cache, map[1 := 1, 2 := 1], [A1, B1])
    ensures AdmitAll(FRESH, [A1, B2, B1]).clock != Merge(FRESH.clock, FULL.clock)
  {
    CacheListsBackwards();
    QueryOfAll([A1, B2, B1]);
    AdmitThree(FRESH, A1, B2, B1);
    PullA1();
    RefuseB2ThenPullB1(Admit(FRESH, A1));
    assert FULL.clock[2] == 2;
    assert At(Merge(FRESH.clock, FULL.clock), 2) == 2;
  }

  /** No chain of that answer carries author 2's second entry: it comes before the first. */
  lemma CacheAnswerCarriesTooLittle()
    ensures !CarriesAll(FRESH.clock, [A1, B2, B1], FULL.clock)
  {
    var list := [A1, B2, B1];
    assert 2 !in A1.clock && B2.clock[2] == 2 && B1.clock[2] == 1 && FULL.clock[2] == 2;
    assert Seq(list[1]) == 2 && forall i: nat :: !ChainStep(list, i, 1);
    forall js: seq<nat> ensures !CarriedBy(map[], list, 3, 2, 2, js) {
      assert Chain(map[], list, js) && |js| > 1 ==> ChainStep(list, js[|js| - 2], js[|js| - 1]);
    }
    assert !Carried(map[], list, 3, 2, 2);
  }

  // Author 2 books B1; author 1 receives it and books X1; author 2 receives that and books B2.
  const X1: Entry := Entry(map[1 := 1, 2 := 1], Data(1, 25, map[]))

  /** Ascending order is not needed: X1 stands in for B1, and the clock is merged although B1 comes last. */
  lemma DescendingAnswerCanCarryAll()
    ensures !Increasing([X1, B2, B1])
    ensures CarriesAll(FRESH.clock, [X1, B2, B1], FULL.clock)
    ensures AdmitAll(FRESH, [X1, B2, B1]).clock == Merge(FRESH.clock, FULL.clock)
  {
    var list := [X1, B2, B1];
    assert 2 in X1.clock && X1.clock[2] == 1 && X1.clock[1] == 1 && B2.clock[2] == 2 && B1.clock[2] == 1;
    assert list[1] == B2 && list[2] == B1 && Seq(B2) == 2 && Seq(B1) == 1;
    assert CarriedBy(map[], list, 3, 1, 1, [0]);
    assert ChainStep(list, 0, 1);
    assert CarriedBy(map[], list, 3, 2, 2, [0, 1]);
    assert FULL.clock.Keys == {1, 2};
    AdmitThree(FRESH, X1, B2, B1);
    TakeX1ThenB2();
  }

  lemma TakeX1ThenB2()
    ensures Admit(Admit(Admit(FRESH, X1), B2), B1).clock == Merge(FRESH.clock, FULL.clock)
  {
    AdmitNext(FRESH, X1);
    var r1 := Replica(Cache, X1.clock, [X1]);
    assert Merge(map[], X1.clock) == X1.clock && Merge(map[], FULL.clock) == FULL.clock;
    assert Admit(FRESH, X1) == r1;
    assert X1.clock[2] == 1 && B2.clock[2] == 2;
    AdmitNext(r1, B2);
    var r2 := Replica(Cache, FULL.clock, [X1, B2]);
    assert Merge(r1.clock, B2.clock) == FULL.clock;
    assert Admit(r1, B2) == r2;
    assert FULL.clock[2] == 2 && B1.clock[2] == 1;
    assert Admit(r2, B1) == r2;
  }

  lemma {:induction false} QueryOfAll(list: seq<Entry>)
    requires forall e | e in list :: e.data.id in e.clock
    ensures Query(list, map[]) == list
  {
    if list != [] {
      assert list[0] in list && forall e | e in list[1..] :: e in list;
      MissingIsNotBelow(list[0].clock, map[]);
      QueryOfAll(list[1..]);
      assert list == [list[0]] + list[1..];
    }
  }

  /** Out of causal order an entry is dropped for good while the clocks still agree: a batch
      [{aa:1, bb:1}, {bb:1}] into an empty journal leaves the full clock without the second entry. */
  lemma EqualClocksDifferentStores(aa: Id, bb: Id, x: Entry, y: Entry)
    requires 0 < aa && 0 < bb && aa != bb
    requires x == Entry(map[aa := 1, bb := 1], Data(aa, x.data.value, map[]))
    requires y == Entry(map[bb := 1], Data(bb, y.data.value, map[]))
    ensures AdmitAll(FRESH, [x, y]).clock == AdmitAll(FRESH, [y, x]).clock == x.clock
    ensures AdmitAll(FRESH, [y, x]).saved == [y, x]
    ensures AdmitAll(FRESH, [x, y]).saved == [x]
  {
    assert [x, y][1..] == [y] && [y, x][1..] == [x] && [x][1..] == [] && [y][1..] == [];
    assert aa !in y.clock && aa in x.clock && bb in x.clock && x.clock[bb] == 1;
    AdmitNext(FRESH, x);
    var r := Replica(Cache, x.clock, [x]);
    assert Merge(map[], x.clock) == x.clock;
    assert Admit(FRESH, x) == r;
    assert Admit(r, y) == r;
    AdmitNext(FRESH, y);
    var q := Replica(Cache, y.clock, [y]);
    assert Merge(map[], y.clock) == y.clock;
    assert Admit(FRESH, y) == q;
    AdmitNext(q, x);
    assert Merge(y.clock, x.clock) == x.clock;
    assert AdmitAll(FRESH, [y, x]) == AdmitAll(q, [x]) == Admit(q, x);
    assert AdmitAll(FRESH, [x, y]) == AdmitAll(r, [y]) == Admit(r, y);
  }
}
