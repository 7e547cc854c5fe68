/** Two journals connecting: each computes the other's delta, and both insert what they are sent. */
module Handshakes {
  import opened Clocks
  import opened Entries
  import opened Flooding
  import opened Runs
  import opened Convergence
  import opened Listings
  import opened Deltas
  import opened Batches
  import opened Chains
  import Ledgers

  /** BrokerBase::insert of a whole list at journal `n`. */
  ghost function InsertAll(w: Wiring, s: World, n: Id, source: nat, list: seq<Entry>): (r: World)
    requires Wired(w) && w.Keys == s.Keys && n in s
    ensures r.Keys == s.Keys
    decreases list
  {
    if list == [] then s else InsertAll(w, Insert(w, s, n, source, list[0]), n, source, list[1..])
  }

  /** The exchange in Broker::connect: `a` inserts what `b` sent, then `b` what `a` sent. */
  ghost function Exchange(w: Wiring, s: World, a: Id, k: nat, b: Id, j: nat, fromB: seq<Entry>, fromA: seq<Entry>): World
    requires Wired(w) && w.Keys == s.Keys && a in s && b in s
  {
    InsertAll(w, InsertAll(w, s, a, k, fromB), b, j, fromA)
  }

  /** Port `source` is the only way out of `n`. */
  ghost predicate Alone(w: Wiring, n: Id, source: nat)
    requires n in w
  {
    forall i | 0 <= i < |w[n]| && w[n][i].Link? :: i == source
  }

  lemma {:induction false} AloneForwardsNothing(w: Wiring, s: World, n: Id, source: nat, e: Entry, i: nat)
    requires Wired(w) && w.Keys == s.Keys && n in s && Alone(w, n, source) && i <= |w[n]|
    ensures Forward(w, s, n, source, e, i) == s
    decreases |w[n]| - i
  {
    if i < |w[n]| {
      AloneForwardsNothing(w, s, n, source, e, i + 1);
    }
  }

  lemma {:induction false} AloneInsertAll(w: Wiring, s: World, n: Id, source: nat, list: seq<Entry>)
    requires Wired(w) && w.Keys == s.Keys && n in s && Alone(w, n, source)
    ensures InsertAll(w, s, n, source, list) == s[n := AdmitAll(s[n], list)]
    decreases list
  {
    if list == [] {
      assert s[n := s[n]] == s;
    } else {
      var t := s[n := Admit(s[n], list[0])];
      if Admits(s[n], list[0]) {
        TakeOnce(s, n, list[0]);
        AloneForwardsNothing(w, t, n, source, list[0], 0);
      } else {
        assert t == s;
      }
      assert Insert(w, s, n, source, list[0]) == t;
      AloneInsertAll(w, t, n, source, list[1..]);
    }
  }

  /** `batch` is what query returned, in any order, with no entry twice. */
  ghost predicate IsBatch(batch: seq<Entry>, from: Replica, asker: Clock) {
    NoneTwice(batch) && forall e :: e in batch <==> e in Query(Listing(from), asker)
  }

  lemma BatchIsDelta(s: Sys, p: Id, q: Id, batch: seq<Entry>)
    requires Inv(s) && p in s.world && q in s.world && GapFree(s.issued, s.world[q])
    requires IsBatch(batch, s.world[q], s.world[p].clock)
    ensures IsDelta(s.issued, s.world[p].clock, s.world[q].clock, batch)
  {
    assert ReplicaOk(s.issued, s.world[p]) && ReplicaOk(s.issued, s.world[q]);
    AnswerIsDelta(s.issued, s.world[p].clock, s.world[q], batch);
  }

  lemma AnswerIsDelta(h: Issued, from: Clock, q: Replica, batch: seq<Entry>)
    requires WellStamped(h) && DistinctStamps(h) && ReplicaOk(h, q) && GapFree(h, q) && Known(h, from)
    requires IsBatch(batch, q, from)
    ensures IsDelta(h, from, q.clock, batch)
  {
    var c := q.clock;
    DeltaOf(h, from, q);
    forall e | e in batch ensures IsIssued(h, e) && At(from, e.data.id) < Seq(e) <= At(c, e.data.id) {
      assert IsIssued(h, e);
      CountedIsDominated(h, e, c);
    }
    forall a, n | a in c && At(from, a) < n <= c[a] && n <= Count(h, a) ensures Nth(h, a, n) in batch {
      assert StampOk(h, a, n);
      GapFreeHolds(h, q, Nth(h, a, n));
    }
  }

  /** One side of the exchange, in any batch order: the clock becomes the merge exactly when chains carry every
      missing count, ascending order being enough; the store becomes the union exactly when the batch is causal. */
  lemma BatchAtOneSide(s: Sys, p: Id, q: Id, batch: seq<Entry>)
    requires Inv(s) && p in s.world && q in s.world
    requires GapFree(s.issued, s.world[p]) && GapFree(s.issued, s.world[q])
    requires IsBatch(batch, s.world[q], s.world[p].clock)
    ensures AdmitAll(s.world[p], batch).clock == Merge(s.world[p].clock, s.world[q].clock) <==>
            CarriesAll(s.world[p].clock, batch, s.world[q].clock)
    ensures Increasing(batch) ==> AdmitAll(s.world[p], batch).clock == Merge(s.world[p].clock, s.world[q].clock)
    ensures HoldsUnion(AdmitAll(s.world[p], batch), s.world[p], s.world[q]) <==> Ledgers.CausalOrder(batch)
  {
    assert ReplicaOk(s.issued, s.world[p]) && ReplicaOk(s.issued, s.world[q]);
    BatchIsDelta(s, p, q, batch);
    BatchIsUnion(s, p, q, batch);
    DeltaAtOneSide(s.issued, s.world[p], s.world[q], batch);
  }

  lemma DeltaAtOneSide(h: Issued, p: Replica, q: Replica, batch: seq<Entry>)
    requires WellStamped(h) && DistinctStamps(h) && ReplicaOk(h, p) && Known(h, q.clock)
    requires IsDelta(h, p.clock, q.clock, batch) && NoneTwice(batch) && forall e | e in batch :: e !in p.saved
    requires forall e :: e in p.saved + batch <==> e in p.saved || e in q.saved
    ensures AdmitAll(p, batch).clock == Merge(p.clock, q.clock) <==> CarriesAll(p.clock, batch, q.clock)
    ensures Increasing(batch) ==> AdmitAll(p, batch).clock == Merge(p.clock, q.clock)
    ensures HoldsUnion(AdmitAll(p, batch), p, q) <==> Ledgers.CausalOrder(batch)
  {
    ClockMergesExactlyWhenCarried(h, p, q.clock, batch);
    if Increasing(batch) {
      BatchMergesClocks(h, p, q.clock, batch);
    }
    DeltaHasNoHoles(h, p.clock, q.clock, batch);
    AllAcceptedExactlyWhenCausal(h, p, batch);
    AllAcceptedExactlyWhenAllSaved(p, batch);
    UnionIsAll(p, q, batch);
  }

  lemma UnionIsAll(p: Replica, q: Replica, batch: seq<Entry>)
    requires forall e :: e in p.saved + batch <==> e in p.saved || e in q.saved
    ensures HoldsUnion(AdmitAll(p, batch), p, q) <==> forall e | e in batch :: e in AdmitAll(p, batch).saved
  {
    SavedStaysInside(p, batch);
    assert forall e | e in batch :: e in p.saved + batch;
  }

  ghost predicate HoldsUnion(r: Replica, p: Replica, q: Replica) {
    forall e :: e in r.saved <==> e in p.saved || e in q.saved
  }

  lemma BatchIsUnion(s: Sys, p: Id, q: Id, batch: seq<Entry>)
    requires Inv(s) && p in s.world && q in s.world && GapFree(s.issued, s.world[p])
    requires IsBatch(batch, s.world[q], s.world[p].clock)
    ensures forall e :: e in s.world[p].saved + batch <==> e in s.world[p].saved || e in s.world[q].saved
    ensures forall e | e in batch :: e !in s.world[p].saved
  {
    DeltaTest(s, p, q);
    GapFreeLacks(s, p, q);
  }

  lemma ExchangeOfTwo(w: Wiring, s: World, a: Id, k: nat, b: Id, j: nat, fromB: seq<Entry>, fromA: seq<Entry>)
    requires Wired(w) && w.Keys == s.Keys && a in w && b in w && a != b && Alone(w, a, k) && Alone(w, b, j)
    ensures Exchange(w, s, a, k, b, j, fromB, fromA) ==
            s[a := AdmitAll(s[a], fromB)][b := AdmitAll(s[b], fromA)]
  {
    AloneInsertAll(w, s, a, k, fromB);
    AloneInsertAll(w, InsertAll(w, s, a, k, fromB), b, j, fromA);
  }

  lemma MergeCommutes(c: Clock, d: Clock)
    ensures Merge(c, d) == Merge(d, c)
  {
    assert Merge(c, d).Keys == Merge(d, c).Keys;
  }

  /** Handshake between two otherwise isolated gap-free journals, on any run and for batches in any order: a
      clock ends at the merge of the two exactly when its batch carries every missing count, and ascending order
      per author is enough; a store ends as the union exactly when its batch is in causal order. */
  lemma HandshakeConverges(run: seq<Sys>, steps: seq<Step>, n: nat, w: Wiring, a: Id, k: nat, b: Id, j: nat,
                           fromB: seq<Entry>, fromA: seq<Entry>, t: World)
    requires IsRun(run, steps) && n < |run| && Wired(w) && w.Keys == run[n].world.Keys
    requires a in w && b in w && a != b && Alone(w, a, k) && Alone(w, b, j)
    requires GapFree(run[n].issued, run[n].world[a]) && GapFree(run[n].issued, run[n].world[b])
    requires IsBatch(fromB, run[n].world[b], run[n].world[a].clock)
    requires IsBatch(fromA, run[n].world[a], run[n].world[b].clock)
    requires t == Exchange(w, run[n].world, a, k, b, j, fromB, fromA)
    ensures a in t && b in t
    ensures var ra, rb := run[n].world[a], run[n].world[b];
            && (t[a].clock == Merge(ra.clock, rb.clock) <==> CarriesAll(ra.clock, fromB, rb.clock))
            && (t[b].clock == Merge(ra.clock, rb.clock) <==> CarriesAll(rb.clock, fromA, ra.clock))
            && (Increasing(fromB) ==> t[a].clock == Merge(ra.clock, rb.clock))
            && (Increasing(fromA) ==> t[b].clock == Merge(ra.clock, rb.clock))
            && (HoldsUnion(t[a], ra, rb) <==> Ledgers.CausalOrder(fromB))
            && (HoldsUnion(t[b], rb, ra) <==> Ledgers.CausalOrder(fromA))
  {
    RunKeepsInv(run, steps, n);
    var s := run[n].world;
    ExchangeOfTwo(w, s, a, k, b, j, fromB, fromA);
    BatchAtOneSide(run[n], a, b, fromB);
    BatchAtOneSide(run[n], b, a, fromA);
    MergeCommutes(s[a].clock, s[b].clock);
  }

  /** What a journal answers, of either plugin, is such a batch. */
  lemma AnswersAreBatches(s: Sys, q: Id, from: Clock)
    requires Inv(s) && q in s.world
    ensures IsBatch(Query(Listing(s.world[q]), from), s.world[q], from)
  {
    assert ReplicaOk(s.issued, s.world[q]);
    ListingIsDistinct(s.issued, s.world[q]);
    QueryKeepsDistinct(Listing(s.world[q]), from);
  }

  lemma {:induction false} QueryKeepsDistinct(list: seq<Entry>, from: Clock)
    requires NoneTwice(list)
    ensures NoneTwice(Query(list, from))
  {
    if list != [] {
      assert forall i | 0 <= i < |list[1..]| :: list[1..][i] == list[i + 1];
      assert list[0] !in list[1..];
      QueryKeepsDistinct(list[1..], from);
      QueryMembers(list[1..], from);
    }
  }

  /** The file journal's answer is ascending as well. */
  lemma FileBatchesAreAscending(s: Sys, q: Id, from: Clock)
    requires Inv(s) && q in s.world && s.world[q].plugin.File?
    ensures Increasing(Query(Listing(s.world[q]), from))
  {
    var r := s.world[q];
    assert ReplicaOk(s.issued, r);
    FileListingIsSorted(s.issued, r);
    assert Increasing(FileListing(r.clock, r.saved)) by {
      var l := FileListing(r.clock, r.saved);
      forall i, j | 0 <= i < j < |l| && l[i].data.id == l[j].data.id ensures Seq(l[i]) < Seq(l[j]) {
        assert Before(l[i], l[j]);
      }
    }
    QueryKeepsIncreasing(Listing(r), from);
  }
}
