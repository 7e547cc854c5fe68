/** The stamp of an entry as an index into the logs: its own count is its line number. */
module Indexes {
  import opened Clocks
  import opened Entries
  import opened Flooding
  import opened Runs
  import opened Convergence
  import opened Listings
  import opened Files
  import opened Text
  import opened Counterexamples

  /** The line of the author's log that the stamp points at is this entry's. */
  ghost predicate InItsLine(saved: seq<Entry>, e: Entry) {
    var log := ByAuthor(saved, e.data.id);
    1 <= Seq(e) <= |log| && log[Seq(e) - 1] == e
  }

  /** The seeks that come before the one in the author's own log do not make the search give up. */
  ghost predicate ReachesOwnLog(ids: seq<Id>, saved: seq<Entry>, e: Entry) {
    forall b | b in ids && b < e.data.id :: Reach(ByAuthor(saved, b), At(e.clock, b))
  }

  lemma {:induction false} LookupSaved(ids: seq<Id>, saved: seq<Entry>, e: Entry)
    requires StrictlyAscending(ids) && e in saved && e.data.id in ids && e.data.id != 0
    requires forall x | x in saved && x.clock == e.clock :: x == e
    ensures Lookup(ids, e.clock, saved) == e.data <==> InItsLine(saved, e) && ReachesOwnLog(ids, saved, e)
  {
    var a, rest := ids[0], ids[1..];
    assert a in ids && forall b :: b in ids <==> b == a || b in rest;
    assert forall i, j | 0 <= i < j < |rest| :: rest[i] == ids[i + 1] && rest[j] == ids[j + 1];
    ByAuthorMembers(saved, a);
    if a == e.data.id {
      forall b | b in rest ensures a < b {
        var j :| 0 <= j < |rest| && rest[j] == b;
        assert ids[j + 1] == b;
      }
      LookupMisses(rest, e.clock, saved);
    } else {
      assert a < e.data.id by {
        var j :| 0 <= j < |ids| && ids[j] == e.data.id;
      }
      LookupSaved(rest, saved, e);
    }
  }

  /** Exactly when a saved entry is found by its stamp, on any run: its line is where the stamp says, and
      every author with a smaller id in the stamp has a log long enough for the search to get past it. */
  lemma FoundExactlyWhen(h: Issued, r: Replica, e: Entry)
    requires ReplicaOk(h, r) && DistinctStamps(h) && 0 !in h && e in r.saved
    ensures Lookup(SortedIds(e.clock.Keys), e.clock, r.saved) == e.data <==>
            InItsLine(r.saved, e) && forall b | b in e.clock && b < e.data.id :: Reach(ByAuthor(r.saved, b), e.clock[b])
  {
    var ids := SortedIds(e.clock.Keys);
    SortedIdsAreAscending(e.clock.Keys);
    assert IsIssued(h, e);
    SavedStampsDiffer(h, r);
    forall x | x in r.saved && x.clock == e.clock ensures x == e {
      var i, j :| 0 <= i < |r.saved| && 0 <= j < |r.saved| && r.saved[i] == x && r.saved[j] == e;
    }
    LookupSaved(ids, r.saved, e);
  }

  lemma GapFreeIsIndexed(h: Issued, r: Replica, e: Entry)
    requires ReplicaOk(h, r) && WellStamped(h) && GapFree(h, r) && e in r.saved
    ensures InItsLine(r.saved, e)
    ensures forall b | b in e.clock :: Reach(ByAuthor(r.saved, b), e.clock[b])
  {
    assert IsIssued(h, e) && Leq(e.clock, r.clock);
    IssuedStampIsKnown(h, e);
    assert e.data.id in e.clock;
    assert LogIsPrefix(h, r, e.data.id);
    forall b | b in e.clock ensures Reach(ByAuthor(r.saved, b), e.clock[b]) {
      assert 1 <= e.clock[b] <= At(r.clock, b);
      assert LogIsPrefix(h, r, b);
    }
  }

  /** The index agrees with the log: on every causally delivered run, each saved entry is found by its
      stamp, and every other clock finds nothing. */
  lemma IndexAgreesWithLog(run: seq<Sys>, steps: seq<Step>, k: nat, n: Id)
    requires IsCausalRun(run, steps) && k < |run| && n in run[k].world
    ensures var saved := run[k].world[n].saved;
            && (forall e | e in saved :: Lookup(SortedIds(e.clock.Keys), e.clock, saved) == e.data)
            && (forall c: Clock | !HasStamp(saved, c) :: Lookup(SortedIds(c.Keys), c, saved) == Data(0, 0, map[]))
  {
    var s := run[k];
    var r := s.world[n];
    RunKeepsInv(run, steps, k);
    CausalRunIsGapFree(run, steps, k);
    assert ReplicaOk(s.issued, r) && GapFree(s.issued, r);
    forall e | e in r.saved ensures Lookup(SortedIds(e.clock.Keys), e.clock, r.saved) == e.data {
      GapFreeIsIndexed(s.issued, r, e);
      FoundExactlyWhen(s.issued, r, e);
    }
    forall c: Clock | !HasStamp(r.saved, c) ensures Lookup(SortedIds(c.Keys), c, r.saved) == NOTHING.data {
      LookupMisses(SortedIds(c.Keys), c, r.saved);
    }
  }

  // Out of causal order the search can give up before it reaches the entry

  const A2: Entry := Entry(map[1 := 2], Data(1, 15, map[]))
  const C1: Entry := Entry(map[1 := 2, 2 := 1], Data(2, 40, map[]))

  const NEW: Replica := Replica(File, map[], [])

  /** Author 2 books C1 after receiving A1 and A2. */
  lemma C1IsStamped()
    ensures Stamped(Admit(Admit(NEW, A1), A2), C1.data) == C1
  {
    AdmitNext(NEW, A1);
    var r1 := Replica(File, map[1 := 1], [A1]);
    assert Admit(NEW, A1) == r1 by { assert Merge(map[], A1.clock) == map[1 := 1]; }
    assert A1.clock[1] != A2.clock[1];
    AdmitNext(r1, A2);
    assert Merge(r1.clock, A2.clock) == map[1 := 2];
  }

  /** A journal that receives C1 first saves it, lists it, and does not find it by its stamp. */
  lemma BreakHidesEntry()
    ensures Admits(NEW, C1)
    ensures FileListing(Take(NEW, C1).clock, Take(NEW, C1).saved) == [C1]
    ensures Lookup(SortedIds(C1.clock.Keys), C1.clock, Take(NEW, C1).saved) != C1.data
  {
    var r := Take(NEW, C1);
    assert Merge(map[], C1.clock) == C1.clock;
    assert r.saved == [C1] && [C1][1..] == [];
    assert ByAuthor([], 1) == [] && ByAuthor([], 2) == [];
    assert ByAuthor([C1], 1) == [] && ByAuthor([C1], 2) == [C1];
    assert C1.clock.Keys == {1, 2};
    SortedPair(1, 2);
    var ids := [1, 2];
    assert ids[1..] == [2] && ids[1..][1..] == [];
    assert At(C1.clock, 1) == 2;
    assert FileLogs([2], r.clock, r.saved) == [C1];
  }
}
