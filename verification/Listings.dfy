/** The order in which each plugin lists its entries. */
module Listings {
  import opened Clocks
  import opened Entries
  import opened Flooding
  import opened Runs

  // Ascending iteration over the keys of an ordered map

  lemma {:induction false} FindLeast(s: set<Id>) returns (x: Id)
    requires s != {}
    ensures x in s && forall y | y in s :: x <= y
    decreases s
  {
    x :| x in s;
    var rest := s - {x};
    assert forall z | z in s :: z == x || z in rest;
    if rest != {} {
      var y := FindLeast(rest);
      if y < x {
        x := y;
      }
    }
  }

  lemma HasLeast(s: set<Id>)
    requires s != {}
    ensures exists x :: x in s && forall y | y in s :: x <= y
  {
    var x := FindLeast(s);
  }

  function Least(s: set<Id>): (x: Id)
    requires s != {}
    ensures x in s && forall y | y in s :: x <= y
  {
    HasLeast(s);
    var x :| x in s && forall y | y in s :: x <= y;
    x
  }

  function SortedIds(s: set<Id>): (ids: seq<Id>)
    decreases s
  {
    if s == {} then [] else [Least(s)] + SortedIds(s - {Least(s)})
  }

  ghost predicate StrictlyAscending(ids: seq<Id>) { forall i, j | 0 <= i < j < |ids| :: ids[i] < ids[j] }

  lemma {:induction false} SortedIdsAreAscending(s: set<Id>)
    ensures StrictlyAscending(SortedIds(s))
    ensures forall x :: x in SortedIds(s) <==> x in s
    decreases s
  {
    if s != {} {
      var x, rest := Least(s), SortedIds(s - {Least(s)});
      SortedIdsAreAscending(s - {x});
      forall j | 0 <= j < |rest| ensures x < rest[j] {
        assert rest[j] in rest;
      }
      assert forall y :: y in [x] + rest <==> y == x || y in rest;
    }
  }

  // The file journal: by author id and then by line

  function Prefix(log: seq<Entry>, n: nat): seq<Entry> { if |log| <= n then log else log[..n] }

  function FileLogs(ids: seq<Id>, clock: Clock, saved: seq<Entry>): seq<Entry> {
    if ids == [] then [] else Prefix(ByAuthor(saved, ids[0]), At(clock, ids[0])) + FileLogs(ids[1..], clock, saved)
  }

  function FileListing(clock: Clock, saved: seq<Entry>): seq<Entry> {
    FileLogs(SortedIds(clock.Keys), clock, saved)
  }

  // The cache journal: by stamp, as ordered maps iterate

  predicate SeqLess(s: seq<nat>, t: seq<nat>) {
    t != [] && (s == [] || s[0] < t[0] || (s[0] == t[0] && SeqLess(s[1..], t[1..])))
  }

  lemma {:induction false} SeqLessIsTotalOrder(s: seq<nat>, t: seq<nat>, u: seq<nat>)
    ensures !SeqLess(s, s)
    ensures SeqLess(s, t) && SeqLess(t, u) ==> SeqLess(s, u)
    ensures s == t || SeqLess(s, t) || SeqLess(t, s)
    decreases s
  {
    if s != [] {
      SeqLessIsTotalOrder(s[1..], if t == [] then [] else t[1..], if u == [] then [] else u[1..]);
      assert t != [] && s[0] == t[0] && s[1..] == t[1..] ==> s == t by {
        assert s == [s[0]] + s[1..];
        assert t != [] ==> t == [t[0]] + t[1..];
      }
    }
  }

  function FlatOver(ids: seq<Id>, c: Clock): seq<nat> {
    if ids == [] then [] else [ids[0], At(c, ids[0])] + FlatOver(ids[1..], c)
  }

  function Flat(c: Clock): seq<nat> { FlatOver(SortedIds(c.Keys), c) }

  predicate LexLess(c: Clock, d: Clock) { SeqLess(Flat(c), Flat(d)) }

  lemma {:induction false} FlatDeterminesPairs(i1: seq<Id>, c1: Clock, i2: seq<Id>, c2: Clock)
    requires FlatOver(i1, c1) == FlatOver(i2, c2)
    ensures i1 == i2
    ensures forall a | a in i1 :: At(c1, a) == At(c2, a)
  {
    FlatLength(i1, c1);
    FlatLength(i2, c2);
    if i1 != [] {
      var f1, f2 := FlatOver(i1, c1), FlatOver(i2, c2);
      assert f1[0] == i1[0] && f2[0] == i2[0] && f1[1] == At(c1, i1[0]) && f2[1] == At(c2, i2[0]);
      assert f1[2..] == FlatOver(i1[1..], c1) && f2[2..] == FlatOver(i2[1..], c2);
      FlatDeterminesPairs(i1[1..], c1, i2[1..], c2);
      assert i1 == [i1[0]] + i1[1..] && i2 == [i2[0]] + i2[1..];
    }
  }

  lemma {:induction false} FlatLength(ids: seq<Id>, c: Clock)
    ensures |FlatOver(ids, c)| == 2 * |ids|
  {
    if ids != [] {
      FlatLength(ids[1..], c);
    }
  }

  lemma SamePairsSameClock(ids: seq<Id>, c: Clock, d: Clock)
    requires forall a :: a in ids <==> a in c
    requires forall a :: a in ids <==> a in d
    requires forall a | a in ids :: At(c, a) == At(d, a)
    ensures c == d
  {
    assert c.Keys == d.Keys;
    forall a | a in c ensures c[a] == d[a] {
      assert a in ids && At(c, a) == At(d, a);
    }
  }

  lemma FlatIsInjective(c: Clock, d: Clock)
    requires Flat(c) == Flat(d)
    ensures c == d
  {
    FlatDeterminesPairs(SortedIds(c.Keys), c, SortedIds(d.Keys), d);
    SortedIdsAreAscending(c.Keys);
    SortedIdsAreAscending(d.Keys);
    SamePairsSameClock(SortedIds(c.Keys), c, d);
  }

  /** The clocks agree on every author below `a`, and not on `a`. */
  ghost predicate FirstDifference(c: Clock, d: Clock, a: Id) {
    && (forall b: Id | b < a :: (b in c <==> b in d) && At(c, b) == At(d, b))
    && ((a in c) != (a in d) || At(c, a) != At(d, a))
  }

  /** The order of stamps: where two clocks first differ, the smaller count comes first; if only one of them has
      that author, it comes first exactly when the other goes on to some later author. */
  lemma LexLessExactly(c: Clock, d: Clock, a: Id)
    requires FirstDifference(c, d, a)
    ensures a in c && a in d ==> (LexLess(c, d) <==> c[a] < d[a])
    ensures a in c && a !in d ==> (LexLess(c, d) <==> exists b :: b in d && a < b)
    ensures a !in c && a in d ==> (LexLess(c, d) <==> !exists b :: b in c && a < b)
  {
    SortedIdsAreAscending(c.Keys);
    SortedIdsAreAscending(d.Keys);
    FlatLess(SortedIds(c.Keys), c, SortedIds(d.Keys), d, a);
  }

  /** What is left of two ascending lists of authors once those they share below `a` are gone. */
  lemma {:induction false} FlatLess(i1: seq<Id>, c: Clock, i2: seq<Id>, d: Clock, a: Id)
    requires StrictlyAscending(i1) && StrictlyAscending(i2) && FirstDifference(c, d, a)
    requires forall b | b < a :: b in i1 <==> b in i2
    requires a in i1 <==> a in c
    requires a in i2 <==> a in d
    ensures SeqLess(FlatOver(i1, c), FlatOver(i2, d)) <==>
            if a in c && a in d then c[a] < d[a]
            else if a in c then exists b :: b in i2 && a < b
            else !exists b :: b in i1 && a < b
    decreases |i1| + |i2|
  {
    if i1 != [] && i1[0] < a {
      assert i1[0] in i2;
      SameHead(i1, i2, a);
      TailIsAscending(i1);
      TailIsAscending(i2);
      FlatLess(i1[1..], c, i2[1..], d, a);
      FlatStep(i1, c, i2, d);
    } else {
      HeadsFromHere(i1, i2, a);
      FlatHead(i1, c);
      FlatHead(i2, d);
    }
  }

  lemma TailIsAscending(ids: seq<Id>)
    requires StrictlyAscending(ids) && ids != []
    ensures StrictlyAscending(ids[1..])
    ensures forall b :: b in ids <==> b == ids[0] || b in ids[1..]
    ensures ids[0] !in ids[1..]
  {
    assert forall i | 0 <= i < |ids[1..]| :: ids[1..][i] == ids[i + 1];
  }

  lemma SameHead(i1: seq<Id>, i2: seq<Id>, a: Id)
    requires StrictlyAscending(i1) && StrictlyAscending(i2) && i1 != [] && i1[0] < a && i1[0] in i2
    requires forall b | b < a :: b in i1 <==> b in i2
    ensures i2 != [] && i2[0] == i1[0]
  {
    var j :| 0 <= j < |i2| && i2[j] == i1[0];
    assert i2[0] < a && i2[0] in i2;
    var k :| 0 <= k < |i1| && i1[k] == i2[0];
  }

  /** Nothing below `a` is left. */
  lemma HeadsFromHere(i1: seq<Id>, i2: seq<Id>, a: Id)
    requires StrictlyAscending(i1) && StrictlyAscending(i2) && (i1 != [] ==> a <= i1[0])
    requires forall b | b < a :: b in i1 <==> b in i2
    ensures i2 != [] ==> a <= i2[0]
    ensures a in i1 <==> i1 != [] && i1[0] == a
    ensures a in i2 <==> i2 != [] && i2[0] == a
    ensures (exists b :: b in i1 && a < b) <==> i1 != [] && a < i1[|i1| - 1]
    ensures (exists b :: b in i2 && a < b) <==> i2 != [] && a < i2[|i2| - 1]
  {
    assert i2 != [] ==> i2[0] in i2;
    AnyLarger(i1, a);
    AnyLarger(i2, a);
  }

  lemma AnyLarger(ids: seq<Id>, a: Id)
    requires StrictlyAscending(ids)
    ensures (exists b :: b in ids && a < b) <==> ids != [] && a < ids[|ids| - 1]
  {
    if b :| b in ids && a < b {
      var j :| 0 <= j < |ids| && ids[j] == b;
    }
    if ids != [] {
      assert ids[|ids| - 1] in ids;
    }
  }

  lemma FlatHead(ids: seq<Id>, c: Clock)
    ensures ids == [] <==> FlatOver(ids, c) == []
    ensures ids != [] ==> |FlatOver(ids, c)| >= 2 && FlatOver(ids, c)[0] == ids[0] && FlatOver(ids, c)[1] == At(c, ids[0])
    ensures ids != [] ==> FlatOver(ids, c)[1..][0] == At(c, ids[0])
  {}

  lemma FlatStep(i1: seq<Id>, c: Clock, i2: seq<Id>, d: Clock)
    requires i1 != [] && i2 != [] && i1[0] == i2[0] && At(c, i1[0]) == At(d, i1[0])
    ensures SeqLess(FlatOver(i1, c), FlatOver(i2, d)) <==> SeqLess(FlatOver(i1[1..], c), FlatOver(i2[1..], d))
  {
    var f1, f2 := FlatOver(i1, c), FlatOver(i2, d);
    assert f1[1..][1..] == FlatOver(i1[1..], c) && f2[1..][1..] == FlatOver(i2[1..], d);
    assert f1[1..][0] == f2[1..][0];
  }

  /** A stamp comes before every larger stamp of the same authors. */
  lemma LargerStampIsLater(c: Clock, d: Clock)
    requires c.Keys == d.Keys && Leq(c, d) && c != d
    ensures LexLess(c, d)
  {
    var differ := set a | a in c && c[a] != d[a];
    assert !(forall a | a in c :: a !in differ);
    var a := Least(differ);
    assert FirstDifference(c, d, a) by {
      forall b: Id | b < a ensures (b in c <==> b in d) && At(c, b) == At(d, b) {
        assert b !in differ;
      }
    }
    LexLessExactly(c, d, a);
  }

  lemma LexLessIsTotalOrder(c: Clock, d: Clock, e: Clock)
    ensures !LexLess(c, c)
    ensures LexLess(c, d) && LexLess(d, e) ==> LexLess(c, e)
    ensures c == d || LexLess(c, d) || LexLess(d, c)
  {
    SeqLessIsTotalOrder(Flat(c), Flat(d), Flat(e));
    if Flat(c) == Flat(d) {
      FlatIsInjective(c, d);
    }
  }

  lemma {:induction false} FindFirst(s: set<Clock>) returns (x: Clock)
    requires s != {}
    ensures x in s && forall y | y in s :: x == y || LexLess(x, y)
    decreases s
  {
    x :| x in s;
    var rest := s - {x};
    assert forall z | z in s :: z == x || z in rest;
    if rest != {} {
      var y := FindFirst(rest);
      var first := if LexLess(y, x) then y else x;
      forall z | z in s ensures first == z || LexLess(first, z) {
        LexLessIsTotalOrder(x, y, z);
      }
      x := first;
    }
  }

  lemma HasFirst(s: set<Clock>)
    requires s != {}
    ensures exists x :: x in s && forall y | y in s :: x == y || LexLess(x, y)
  {
    var x := FindFirst(s);
  }

  /** The first key of a map ordered by stamp. */
  function First(s: set<Clock>): (x: Clock)
    requires s != {}
    ensures x in s && forall y | y in s :: x == y || LexLess(x, y)
  {
    HasFirst(s);
    assert forall x, y | x in s && y in s && LexLess(x, y) :: !LexLess(y, x) by {
      forall x, y | x in s && y in s && LexLess(x, y) ensures !LexLess(y, x) {
        LexLessIsTotalOrder(x, y, x);
      }
    }
    var x :| x in s && forall y | y in s :: x == y || LexLess(x, y);
    x
  }

  function MapListing(m: map<Clock, Data>): seq<Entry>
    decreases m.Keys
  {
    if m == map[] then []
    else
      assert First(m.Keys) in m.Keys;
      [Entry(First(m.Keys), m[First(m.Keys)])] + MapListing(m - {First(m.Keys)})
  }

  /** The map the cache builds from what it saved. */
  function CacheMap(saved: seq<Entry>): map<Clock, Data> {
    if saved == [] then map[]
    else CacheMap(saved[..|saved| - 1])[saved[|saved| - 1].clock := saved[|saved| - 1].data]
  }

  function Listing(r: Replica): seq<Entry> {
    match r.plugin
    case File => FileListing(r.clock, r.saved)
    case Cache => MapListing(CacheMap(r.saved))
  }

  // What the listings promise

  lemma {:induction false} MapListingIsSorted(m: map<Clock, Data>)
    ensures forall e: Entry :: e in MapListing(m) <==> e.clock in m && m[e.clock] == e.data
    ensures forall i, j | 0 <= i < j < |MapListing(m)| :: LexLess(MapListing(m)[i].clock, MapListing(m)[j].clock)
    decreases m.Keys
  {
    if m != map[] {
      var k := First(m.Keys);
      var rest := MapListing(m - {k});
      MapListingIsSorted(m - {k});
      assert MapListing(m) == [Entry(k, m[k])] + rest;
      forall j | 0 <= j < |rest| ensures LexLess(k, rest[j].clock) {
        assert rest[j] in rest;
      }
      assert forall e :: e in MapListing(m) <==> e == Entry(k, m[k]) || e in rest;
    }
  }

  lemma {:induction false} CacheMapHolds(saved: seq<Entry>)
    requires forall i, j | 0 <= i < j < |saved| :: saved[i].clock != saved[j].clock
    ensures forall e: Entry :: e in saved <==> e.clock in CacheMap(saved) && CacheMap(saved)[e.clock] == e.data
    decreases saved
  {
    if saved != [] {
      var last, front := saved[|saved| - 1], saved[..|saved| - 1];
      CacheMapHolds(front);
      assert saved == front + [last];
      assert forall e :: e in saved <==> e == last || e in front;
    }
  }

  lemma {:induction false} FileLogsMembers(ids: seq<Id>, clock: Clock, saved: seq<Entry>)
    requires forall a | a in ids :: |ByAuthor(saved, a)| <= At(clock, a)
    ensures forall e :: e in FileLogs(ids, clock, saved) <==> e in saved && e.data.id in ids
    decreases ids
  {
    if ids != [] {
      assert ids[0] in ids && forall a :: a in ids <==> a == ids[0] || a in ids[1..];
      ByAuthorMembers(saved, ids[0]);
      FileLogsMembers(ids[1..], clock, saved);
    }
  }

  /** By author, then by sequence number. */
  ghost predicate Before(x: Entry, y: Entry) {
    x.data.id < y.data.id || (x.data.id == y.data.id && Seq(x) < Seq(y))
  }

  lemma {:induction false} FileLogsSorted(ids: seq<Id>, clock: Clock, saved: seq<Entry>)
    requires StrictlyAscending(ids)
    requires forall a | a in ids :: |ByAuthor(saved, a)| <= At(clock, a) && Ascending(ByAuthor(saved, a))
    ensures forall i, j | 0 <= i < j < |FileLogs(ids, clock, saved)| ::
              Before(FileLogs(ids, clock, saved)[i], FileLogs(ids, clock, saved)[j])
    decreases ids
  {
    if ids != [] {
      assert ids[0] in ids && forall a | a in ids[1..] :: a in ids;
      var log, rest := ByAuthor(saved, ids[0]), FileLogs(ids[1..], clock, saved);
      assert forall i, j | 0 <= i < j < |ids[1..]| :: ids[1..][i] == ids[i + 1] && ids[1..][j] == ids[j + 1];
      FileLogsSorted(ids[1..], clock, saved);
      FileLogsMembers(ids[1..], clock, saved);
      ByAuthorMembers(saved, ids[0]);
      forall x, y | x in log && y in rest ensures Before(x, y) {
        var k :| 0 <= k < |ids[1..]| && ids[1..][k] == y.data.id;
        assert ids[k + 1] == y.data.id;
      }
      forall i, j | 0 <= i < j < |log + rest| ensures Before((log + rest)[i], (log + rest)[j]) {
        if i < |log| {
          assert log[i] in log;
          if j < |log| {
            assert log[j] in log;
          } else {
            assert rest[j - |log|] in rest;
          }
        }
      }
      assert FileLogs(ids, clock, saved) == log + rest;
    }
  }

  lemma {:induction false} FileLogsAreSaved(ids: seq<Id>, clock: Clock, saved: seq<Entry>)
    ensures forall e | e in FileLogs(ids, clock, saved) :: e in saved
  {
    if ids != [] {
      ByAuthorMembers(saved, ids[0]);
      FileLogsAreSaved(ids[1..], clock, saved);
    }
  }

  lemma {:induction false} CacheMapIsSaved(saved: seq<Entry>)
    ensures forall c: Clock | c in CacheMap(saved) :: Entry(c, CacheMap(saved)[c]) in saved
    decreases saved
  {
    if saved != [] {
      var last, front := saved[|saved| - 1], saved[..|saved| - 1];
      CacheMapIsSaved(front);
      assert saved == front + [last];
    }
  }

  /** Nothing is listed that was not saved, in any state. */
  lemma ListingIsSaved(r: Replica)
    ensures forall e | e in Listing(r) :: e in r.saved
  {
    match r.plugin
    case File => FileLogsAreSaved(SortedIds(r.clock.Keys), r.clock, r.saved);
    case Cache =>
      CacheMapIsSaved(r.saved);
      MapListingIsSorted(CacheMap(r.saved));
  }

  /** The file journal lists every saved entry once, sorted by author and then by sequence number,
      on every run; the order in which entries of different authors arrived plays no part. */
  lemma FileListingIsSorted(h: Issued, r: Replica)
    requires ReplicaOk(h, r)
    ensures forall e :: e in FileListing(r.clock, r.saved) <==> e in r.saved
    ensures forall i, j | 0 <= i < j < |FileListing(r.clock, r.saved)| ::
              Before(FileListing(r.clock, r.saved)[i], FileListing(r.clock, r.saved)[j])
  {
    var ids := SortedIds(r.clock.Keys);
    SortedIdsAreAscending(r.clock.Keys);
    forall a | a in ids ensures |ByAuthor(r.saved, a)| <= At(r.clock, a) && Ascending(ByAuthor(r.saved, a)) {
      ReplicaLogFits(h, r, a);
    }
    FileLogsMembers(ids, r.clock, r.saved);
    FileLogsSorted(ids, r.clock, r.saved);
  }

  /** Both plugins list exactly what was saved. */
  lemma ListingHoldsSaved(s: Sys, n: Id)
    requires Inv(s) && n in s.world
    ensures forall e :: e in Listing(s.world[n]) <==> e in s.world[n].saved
  {
    assert ReplicaOk(s.issued, s.world[n]);
    ListingHoldsStore(s.issued, s.world[n]);
  }

  lemma ListingHoldsStore(h: Issued, r: Replica)
    requires ReplicaOk(h, r) && DistinctStamps(h)
    ensures forall e :: e in Listing(r) <==> e in r.saved
  {
    match r.plugin
    case File => FileListingIsSorted(h, r);
    case Cache =>
      SavedStampsDiffer(h, r);
      CacheMapHolds(r.saved);
      MapListingIsSorted(CacheMap(r.saved));
  }

  lemma SavedStampsDiffer(h: Issued, r: Replica)
    requires ReplicaOk(h, r) && DistinctStamps(h)
    ensures forall i, j | 0 <= i < j < |r.saved| :: r.saved[i].clock != r.saved[j].clock
  {
    forall i, j | 0 <= i < j < |r.saved| ensures r.saved[i].clock != r.saved[j].clock {
      var x, y := r.saved[i], r.saved[j];
      assert x in r.saved && y in r.saved;
      assert IsIssued(h, x) && IsIssued(h, y);
      assert Nth(h, x.data.id, Seq(x)).clock == x.clock && Nth(h, y.data.id, Seq(y)).clock == y.clock;
    }
  }

  lemma ListingIsDistinct(h: Issued, r: Replica)
    requires ReplicaOk(h, r) && DistinctStamps(h)
    ensures forall i, j | 0 <= i < j < |Listing(r)| :: Listing(r)[i] != Listing(r)[j]
  {
    match r.plugin
    case File =>
      FileListingIsSorted(h, r);
      assert forall i, j | 0 <= i < j < |Listing(r)| :: Before(Listing(r)[i], Listing(r)[j]);
    case Cache =>
      var m := CacheMap(r.saved);
      MapListingIsSorted(m);
      forall i, j | 0 <= i < j < |Listing(r)| ensures Listing(r)[i] != Listing(r)[j] {
        assert LexLess(Listing(r)[i].clock, Listing(r)[j].clock);
        LexLessIsTotalOrder(Listing(r)[i].clock, Listing(r)[j].clock, Listing(r)[i].clock);
      }
  }
}
