/** A partition heals: two networks are linked and exchange their deltas. */
module Healing {
  import opened Clocks
  import opened Entries
  import opened Flooding
  import opened Runs
  import opened Convergence
  import opened Deltas
  import opened Batches
  import opened Chains
  import opened Handshakes
  import Ledgers

  /** `side` is connected within itself, from `a` and without the link at port `k`; `other` is all the rest. */
  ghost predicate IsSide(w: Wiring, side: set<Id>, other: set<Id>, a: Id, k: nat) {
    && side + other == w.Keys && side !! other && a in side
    && forall x | x in side :: Reaches(w, side, a, k, x)
  }

  ghost predicate SideAgrees(s: World, side: set<Id>) {
    && (forall n | n in side :: n in s && ClockIsJoin(s[n]))
    && (forall n, m | n in side && m in side && n in s && m in s :: s[n].clock == s[m].clock && s[n].saved == s[m].saved)
  }

  ghost predicate Counts(s: World, side: set<Id>, list: seq<Entry>) {
    forall n, e | n in side && n in s && e in list :: Seq(e) <= At(s[n].clock, e.data.id)
  }

  /** One entry: the side takes it as one journal, and the other side, which counts it already, does not change. */
  lemma SideTakes(w: Wiring, s: World, side: set<Id>, other: set<Id>, a: Id, k: nat, e: Entry, x: Id)
    requires Wired(w) && w.Keys == s.Keys && IsSide(w, side, other, a, k) && SideAgrees(s, side)
    requires Counts(s, other, [e]) && x in w
    ensures Insert(w, s, a, k, e)[x] == if x in side then Admit(s[x], e) else s[x]
  {
    forall n | n in w ensures Admits(s[n], e) <==> n in side && IsNext(e.clock, s[a].clock, e.data.id) {
      if n in side {
        assert s[n].clock == s[a].clock;
        if IsNext(e.clock, s[n].clock, e.data.id) {
          DuplicateBranchUnreachable(s[n], e);
        }
      } else {
        assert e in [e];
        CoveredIsRefused(s[n], e);
      }
    }
    if Admits(s[a], e) {
      assert Ready(s, e) == side;
      FloodTakesReachable(w, s, a, k, e);
      if x !in side && Reaches(w, side, a, k, x) {
        OnlyWithin(w, side, a, k, x);
      }
    }
  }

  lemma OnlyWithin(w: Wiring, area: set<Id>, n: Id, skip: nat, x: Id)
    requires Reaches(w, area, n, skip, x)
    ensures x in area
  {
    var path :| Path(w, area, n, skip, path, x);
    assert path[|path| - 1] in area;
  }

  lemma AdmitKeepsJoin(r: Replica, e: Entry)
    requires ClockIsJoin(r)
    ensures ClockIsJoin(Admit(r, e))
  {
    if Admits(r, e) {
      TakeKeepsJoin(r, e);
    }
  }

  /** Two journals that differ in their plugin alone go on to differ in their plugin alone. */
  lemma AdmitAlike(r: Replica, q: Replica, e: Entry)
    requires ClockIsJoin(r) && ClockIsJoin(q) && r.clock == q.clock && r.saved == q.saved
    ensures Admit(r, e).clock == Admit(q, e).clock && Admit(r, e).saved == Admit(q, e).saved
  {
    if IsNext(e.clock, r.clock, e.data.id) {
      DuplicateBranchUnreachable(r, e);
      DuplicateBranchUnreachable(q, e);
    }
  }

  lemma SideStillAgrees(s: World, t: World, side: set<Id>, e: Entry)
    requires SideAgrees(s, side) && t.Keys == s.Keys && forall n | n in side :: t[n] == Admit(s[n], e)
    ensures SideAgrees(t, side)
  {
    forall n | n in side ensures ClockIsJoin(t[n]) {
      AdmitKeepsJoin(s[n], e);
    }
    forall n, m | n in side && m in side ensures t[n].clock == t[m].clock && t[n].saved == t[m].saved {
      AdmitAlike(s[n], s[m], e);
    }
  }

  /** A whole batch: every journal of the side takes it as if it were alone. */
  lemma {:induction false} SideTakesAll(w: Wiring, s: World, side: set<Id>, other: set<Id>, a: Id, k: nat, list: seq<Entry>, x: Id)
    requires Wired(w) && w.Keys == s.Keys && IsSide(w, side, other, a, k) && SideAgrees(s, side)
    requires Counts(s, other, list) && x in w
    ensures InsertAll(w, s, a, k, list)[x] == if x in side then AdmitAll(s[x], list) else s[x]
    decreases list
  {
    if list != [] {
      var e, t := list[0], Insert(w, s, a, k, list[0]);
      assert e in list && forall y | y in list[1..] :: y in list;
      forall y | y in w ensures t[y] == if y in side then Admit(s[y], e) else s[y] {
        SideTakes(w, s, side, other, a, k, e, y);
      }
      SideStillAgrees(s, t, side, e);
      SideTakesAll(w, t, side, other, a, k, list[1..], x);
    }
  }

  /** What one side is sent is counted on the side it comes from. */
  lemma SentIsCounted(s: Sys, p: Id, q: Id, batch: seq<Entry>, from: set<Id>)
    requires Inv(s) && p in s.world && q in s.world && q in from && from <= s.world.Keys && SideAgrees(s.world, from)
    requires IsBatch(batch, s.world[q], s.world[p].clock)
    ensures Counts(s.world, from, batch)
  {
    assert ReplicaOk(s.issued, s.world[q]);
    DeltaTest(s, p, q);
    forall n, e | n in from && n in s.world && e in batch ensures Seq(e) <= At(s.world[n].clock, e.data.id) {
      assert e in s.world[q].saved && Leq(e.clock, s.world[q].clock) && IsIssued(s.issued, e);
      assert e.data.id in e.clock;
    }
  }

  lemma {:induction false} AdmitAllGrows(r: Replica, list: seq<Entry>, a: Id)
    ensures At(r.clock, a) <= At(AdmitAll(r, list).clock, a)
    decreases list
  {
    if list != [] {
      AdmitGrows(r, list[0]);
      AdmitAllGrows(Admit(r, list[0]), list[1..], a);
    }
  }

  /** The exchange over the new link is the exchange of any two journals of the two sides. */
  lemma ExchangeReachesAll(s: Sys, w: Wiring, left: set<Id>, right: set<Id>, a: Id, k: nat, b: Id, j: nat,
                           fromB: seq<Entry>, fromA: seq<Entry>, x: Id)
    requires Inv(s) && Wired(w) && w.Keys == s.world.Keys && x in w
    requires IsSide(w, left, right, a, k) && IsSide(w, right, left, b, j)
    requires SideAgrees(s.world, left) && SideAgrees(s.world, right)
    requires IsBatch(fromB, s.world[b], s.world[a].clock) && IsBatch(fromA, s.world[a], s.world[b].clock)
    ensures Exchange(w, s.world, a, k, b, j, fromB, fromA)[x] ==
            if x in left then AdmitAll(s.world[x], fromB) else AdmitAll(s.world[x], fromA)
  {
    var t := InsertAll(w, s.world, a, k, fromB);
    SentIsCounted(s, a, b, fromB, right);
    SentIsCounted(s, b, a, fromA, left);
    forall y | y in w ensures t[y] == if y in left then AdmitAll(s.world[y], fromB) else s.world[y] {
      SideTakesAll(w, s.world, left, right, a, k, fromB, y);
    }
    forall n, e | n in left && n in t && e in fromA ensures Seq(e) <= At(t[n].clock, e.data.id) {
      AdmitAllGrows(s.world[n], fromB, e.data.id);
    }
    SideTakesAll(w, t, right, left, b, j, fromA, x);
  }

  lemma SideEndsAlike(s: Sys, w: Wiring, left: set<Id>, right: set<Id>, a: Id, k: nat, b: Id, j: nat,
                      fromB: seq<Entry>, fromA: seq<Entry>, t: World, x: Id)
    requires Inv(s) && Wired(w) && w.Keys == s.world.Keys && x in left
    requires IsSide(w, left, right, a, k) && IsSide(w, right, left, b, j)
    requires SideAgrees(s.world, left) && SideAgrees(s.world, right)
    requires IsBatch(fromB, s.world[b], s.world[a].clock) && IsBatch(fromA, s.world[a], s.world[b].clock)
    requires t == Exchange(w, s.world, a, k, b, j, fromB, fromA) || t == Exchange(w, s.world, b, j, a, k, fromA, fromB)
    ensures x in t && t[x] == AdmitAll(s.world[x], fromB)
    ensures s.world[x].clock == s.world[a].clock && s.world[x].saved == s.world[a].saved
  {
    if t == Exchange(w, s.world, a, k, b, j, fromB, fromA) {
      ExchangeReachesAll(s, w, left, right, a, k, b, j, fromB, fromA, x);
    } else {
      ExchangeReachesAll(s, w, right, left, b, j, a, k, fromA, fromB, x);
    }
  }

  lemma LikeItsSide(s: Sys, a: Id, x: Id, b: Id, batch: seq<Entry>)
    requires Inv(s) && a in s.world && x in s.world && b in s.world
    requires s.world[x].clock == s.world[a].clock && s.world[x].saved == s.world[a].saved
    requires GapFree(s.issued, s.world[a]) && GapFree(s.issued, s.world[b])
    requires IsBatch(batch, s.world[b], s.world[a].clock)
    ensures var r := AdmitAll(s.world[x], batch);
            && (r.clock == Merge(s.world[a].clock, s.world[b].clock) <==>
                CarriesAll(s.world[a].clock, batch, s.world[b].clock))
            && (Increasing(batch) ==> r.clock == Merge(s.world[a].clock, s.world[b].clock))
            && (HoldsUnion(r, s.world[a], s.world[b]) <==> Ledgers.CausalOrder(batch))
  {
    BatchAtOneSide(s, x, b, batch);
  }

  /** A partition heals: when two networks, each in agreement and without gaps, are linked and exchange their
      deltas, every journal of a side ends at the merged clock exactly when that side's batch carries every
      missing count, and at the union exactly when that side's batch is in causal order. */
  lemma PartitionHeals(s: Sys, w: Wiring, left: set<Id>, right: set<Id>, a: Id, k: nat, b: Id, j: nat,
                       fromB: seq<Entry>, fromA: seq<Entry>, t: World, x: Id)
    requires Inv(s) && Wired(w) && w.Keys == s.world.Keys && x in left
    requires IsSide(w, left, right, a, k) && IsSide(w, right, left, b, j)
    requires SideAgrees(s.world, left) && SideAgrees(s.world, right)
    requires GapFree(s.issued, s.world[a]) && GapFree(s.issued, s.world[b])
    requires IsBatch(fromB, s.world[b], s.world[a].clock) && IsBatch(fromA, s.world[a], s.world[b].clock)
    requires t == Exchange(w, s.world, a, k, b, j, fromB, fromA) || t == Exchange(w, s.world, b, j, a, k, fromA, fromB)
    ensures x in t
    ensures t[x].clock == Merge(s.world[a].clock, s.world[b].clock) <==>
            CarriesAll(s.world[a].clock, fromB, s.world[b].clock)
    ensures Increasing(fromB) ==> t[x].clock == Merge(s.world[a].clock, s.world[b].clock)
    ensures HoldsUnion(t[x], s.world[a], s.world[b]) <==> Ledgers.CausalOrder(fromB)
  {
    SideEndsAlike(s, w, left, right, a, k, b, j, fromB, fromA, t, x);
    LikeItsSide(s, a, x, b, fromB);
  }
}
