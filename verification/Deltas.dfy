/** The delta a journal computes for another: the listed entries the other's clock does not cover. */
module Deltas {
  import opened Clocks
  import opened Entries
  import opened Flooding
  import opened Runs
  import opened Convergence
  import opened Listings

  predicate IsMissing(c: Clock, from: Clock) { Concurrent(c, from) || SmallerThan(from, c) }

  /** JournalBase::query over the listed entries. */
  function Query(list: seq<Entry>, from: Clock): seq<Entry> {
    if list == [] then []
    else (if IsMissing(list[0].clock, from) then [list[0]] else []) + Query(list[1..], from)
  }

  lemma QueryStep(list: seq<Entry>, entries: seq<Entry>, i: nat, from: Clock)
    requires i < |entries|
    ensures list + Query(entries[i..], from) ==
            list + (if IsMissing(entries[i].clock, from) then [entries[i]] else []) + Query(entries[i + 1..], from)
  {
    assert entries[i..][0] == entries[i] && entries[i..][1..] == entries[i + 1..];
  }

  /** The loop of JournalBase::query. */
  method Collect(entries: seq<Entry>, from: Clock) returns (list: seq<Entry>)
    ensures list == Query(entries, from)
  {
    list := [];
    for i := 0 to |entries|
      invariant list + Query(entries[i..], from) == Query(entries, from)
    {
      QueryStep(list, entries, i, from);
      if Concurrent(entries[i].clock, from) || SmallerThan(from, entries[i].clock) {
        list := list + [entries[i]];
      }
    }
  }

  lemma MissingIsNotBelow(c: Clock, from: Clock)
    ensures IsMissing(c, from) <==> !Leq(c, from)
  {
    ConcurrentIsIncomparable(c, from);
    SmallerIsStrictlyBelow(from, c);
    LeqIsPartialOrder(c, from, c);
    LeqIsPartialOrder(c, c, c);
  }

  lemma {:induction false} QueryMembers(list: seq<Entry>, from: Clock)
    ensures forall e :: e in Query(list, from) <==> e in list && !Leq(e.clock, from)
  {
    if list != [] {
      MissingIsNotBelow(list[0].clock, from);
      QueryMembers(list[1..], from);
      assert forall e :: e in list <==> e == list[0] || e in list[1..];
    }
  }

  lemma IncreasingPrepend(e: Entry, rest: seq<Entry>)
    requires Increasing(rest) && forall x | x in rest && x.data.id == e.data.id :: Seq(e) < Seq(x)
    ensures Increasing([e] + rest)
  {
    forall j | 0 <= j < |rest| ensures rest[j] in rest {}
  }

  lemma IncreasingTail(list: seq<Entry>)
    requires Increasing(list) && list != []
    ensures Increasing(list[1..])
    ensures forall x | x in list[1..] && x.data.id == list[0].data.id :: Seq(list[0]) < Seq(x)
  {
    assert forall i | 0 <= i < |list[1..]| :: list[1..][i] == list[i + 1];
  }

  lemma {:induction false} QueryKeepsIncreasing(list: seq<Entry>, from: Clock)
    requires Increasing(list)
    ensures Increasing(Query(list, from))
  {
    if list != [] {
      IncreasingTail(list);
      QueryKeepsIncreasing(list[1..], from);
      QueryMembers(list[1..], from);
      IncreasingPrepend(list[0], Query(list[1..], from));
      assert [] + Query(list[1..], from) == Query(list[1..], from);
    }
  }

  /** Delta exactness, in any reachable state: what journal `q` sends journal `p` is what passes the
      one-component test, never an entry `p` holds, and exactly what `p` lacks when both are gap-free. */
  lemma DeltaIsExact(run: seq<Sys>, steps: seq<Step>, k: nat, p: Id, q: Id)
    requires IsRun(run, steps) && k < |run| && p in run[k].world && q in run[k].world
    ensures forall e :: e in Query(Listing(run[k].world[q]), run[k].world[p].clock) <==>
                        e in run[k].world[q].saved && At(run[k].world[p].clock, e.data.id) < Seq(e)
    ensures forall e | e in Query(Listing(run[k].world[q]), run[k].world[p].clock) :: e !in run[k].world[p].saved
    ensures GapFree(run[k].issued, run[k].world[p]) && GapFree(run[k].issued, run[k].world[q]) ==>
              forall e :: e in Query(Listing(run[k].world[q]), run[k].world[p].clock) <==>
                          e in run[k].world[q].saved && e !in run[k].world[p].saved
  {
    RunKeepsInv(run, steps, k);
    DeltaTest(run[k], p, q);
    if GapFree(run[k].issued, run[k].world[p]) {
      GapFreeLacks(run[k], p, q);
    }
  }

  lemma GapFreeLacks(s: Sys, p: Id, q: Id)
    requires Inv(s) && p in s.world && q in s.world && GapFree(s.issued, s.world[p])
    ensures forall e | e in s.world[q].saved && e !in s.world[p].saved :: At(s.world[p].clock, e.data.id) < Seq(e)
  {
    assert ReplicaOk(s.issued, s.world[q]);
    forall e | e in s.world[q].saved && e !in s.world[p].saved ensures At(s.world[p].clock, e.data.id) < Seq(e) {
      if Seq(e) <= At(s.world[p].clock, e.data.id) {
        GapFreeHolds(s.issued, s.world[p], e);
      }
    }
  }

  lemma DeltaTest(s: Sys, p: Id, q: Id)
    requires Inv(s) && p in s.world && q in s.world
    ensures forall e :: e in Query(Listing(s.world[q]), s.world[p].clock) <==>
                        e in s.world[q].saved && At(s.world[p].clock, e.data.id) < Seq(e)
    ensures forall e | e in Query(Listing(s.world[q]), s.world[p].clock) :: e !in s.world[p].saved
  {
    var rp, rq := s.world[p], s.world[q];
    assert ReplicaOk(s.issued, rp) && ReplicaOk(s.issued, rq);
    DeltaOf(s.issued, rp.clock, rq);
    forall e | e in rp.saved ensures Seq(e) <= At(rp.clock, e.data.id) {
      assert IsIssued(s.issued, e) && e.data.id in e.clock;
    }
  }

  /** What `q` lists that a known clock does not dominate is what that clock does not count. */
  lemma DeltaOf(h: Issued, from: Clock, q: Replica)
    requires WellStamped(h) && DistinctStamps(h) && ReplicaOk(h, q) && Known(h, from)
    ensures forall e :: e in Query(Listing(q), from) <==> e in q.saved && At(from, e.data.id) < Seq(e)
  {
    ListingHoldsStore(h, q);
    QueryMembers(Listing(q), from);
    forall e | e in q.saved ensures !Leq(e.clock, from) <==> At(from, e.data.id) < Seq(e) {
      CountedIsDominated(h, e, from);
    }
  }

  lemma GapFreeHolds(h: Issued, r: Replica, e: Entry)
    requires GapFree(h, r) && IsIssued(h, e) && Seq(e) <= At(r.clock, e.data.id)
    ensures e in r.saved
  {
    assert LogIsPrefix(h, r, e.data.id);
    var log := ByAuthor(r.saved, e.data.id);
    assert log[Seq(e) - 1] == Nth(h, e.data.id, Seq(e)) == e;
    ByAuthorMembers(r.saved, e.data.id);
  }
}
