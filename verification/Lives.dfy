/** Causal lives of a forest: as long as every connect answers in causal order, each tree stays in step. */
module Lives {
  import opened Clocks
  import opened Entries
  import opened Flooding
  import opened Runs
  import opened Convergence
  import opened Listings
  import opened Forests
  import opened Tables
  import opened Refreshes
  import opened Joins
  import opened Connects
  import opened Hubs
  import opened Relays
  import opened Meetings
  import opened Meshes
  import opened Batches
  import opened Handshakes
  import opened Exchanges
  import opened Answers
  import opened Unions
  import Deltas
  import Ledgers

  // A causal batch at one journal

  function MergeAll(c: Clock, list: seq<Entry>): Clock
    decreases list
  {
    if list == [] then c else MergeAll(Merge(c, list[0].clock), list[1..])
  }

  /** Each entry is next when its turn comes. */
  predicate AllNext(c: Clock, list: seq<Entry>)
    decreases list
  {
    list == [] || (IsNext(list[0].clock, c, list[0].data.id) && AllNext(Merge(c, list[0].clock), list[1..]))
  }

  lemma {:induction false} AllAcceptedIsAllNext(r: Replica, list: seq<Entry>)
    requires AdmitAll(r, list).saved == r.saved + list
    ensures AllNext(r.clock, list) && AdmitAll(r, list).clock == MergeAll(r.clock, list)
    decreases list
  {
    if list != [] {
      HeadWasAccepted(r, list);
      AllAcceptedIsAllNext(Take(r, list[0]), list[1..]);
    }
  }

  lemma HeadWasAccepted(r: Replica, list: seq<Entry>)
    requires list != [] && AdmitAll(r, list).saved == r.saved + list
    ensures Admits(r, list[0]) && AdmitAll(Take(r, list[0]), list[1..]).saved == Take(r, list[0]).saved + list[1..]
  {
    SavedStaysInside(Admit(r, list[0]), list[1..]);
    TakeThenRest(r, list);
  }

  /** What is left of a batch that is accepted whole is still all that is missing. */
  lemma RestIsDelta(h: Issued, r: Replica, c: Clock, list: seq<Entry>)
    requires WellStamped(h) && ReplicaOk(h, r) && list != [] && NoneTwice(list) && IsDelta(h, r.clock, c, list)
    requires AdmitAll(r, list).saved == r.saved + list
    ensures NoneTwice(list[1..]) && IsDelta(h, Take(r, list[0]).clock, c, list[1..])
  {
    var e, rest, t := list[0], list[1..], Take(r, list[0]);
    HeadWasAccepted(r, list);
    MergeIsLeastUpperBound(r.clock, e.clock);
    assert forall i | 0 <= i < |rest| :: rest[i] == list[i + 1];
    assert e in list && forall x | x in rest :: x in list;
    assert e !in rest;
    forall x | x in rest ensures At(t.clock, x.data.id) < Seq(x) {
      NotSavedBefore(h, r, x);
      assert x in t.saved + rest;
      if Seq(x) <= At(t.clock, x.data.id) {
        CoveredIsNeverSaved(t, rest, x);
      }
    }
    forall a, n | a in c && At(t.clock, a) < n <= c[a] && n <= Count(h, a) ensures Nth(h, a, n) in rest {
      assert Nth(h, a, n) in list && StampOk(h, a, n);
      assert e.data.id in e.clock;
    }
  }

  lemma NotSavedBefore(h: Issued, r: Replica, x: Entry)
    requires ReplicaOk(h, r) && At(r.clock, x.data.id) < Seq(x)
    ensures x !in r.saved
  {
    if x in r.saved {
      SavedIsCounted(h, r, x);
    }
  }

  /** Were the head not causal, what it was stamped on top of would be missing for good. */
  lemma HeadIsCausal(h: Issued, r: Replica, c: Clock, list: seq<Entry>)
    requires WellStamped(h) && ReplicaOk(h, r) && Known(h, c) && list != [] && IsDelta(h, r.clock, c, list)
    requires AdmitAll(r, list).saved == r.saved + list
    ensures Causal(r, list[0])
  {
    var e := list[0];
    assert e in list;
    HeadWasAccepted(r, list);
    CountedIsDominated(h, e, c);
    forall a | a in e.clock && a != e.data.id ensures e.clock[a] <= At(r.clock, a) {
      if At(r.clock, a) < e.clock[a] {
        IssuedStampIsKnown(h, e);
        var x := Nth(h, a, e.clock[a]);
        assert StampOk(h, a, e.clock[a]) && x in list && x in r.saved + list;
        NotSavedBefore(h, r, x);
        MergeIsLeastUpperBound(r.clock, e.clock);
        assert x != e;
        CoveredIsNeverSaved(Take(r, e), list[1..], x);
      }
    }
  }

  lemma {:induction false} AcceptedBatchLeavesNoGap(h: Issued, r: Replica, c: Clock, list: seq<Entry>)
    requires WellStamped(h) && ReplicaOk(h, r) && GapFree(h, r) && Known(h, c)
    requires NoneTwice(list) && IsDelta(h, r.clock, c, list) && AdmitAll(r, list).saved == r.saved + list
    ensures ReplicaOk(h, AdmitAll(r, list)) && GapFree(h, AdmitAll(r, list))
    decreases list
  {
    if list != [] {
      var e := list[0];
      assert e in list;
      IssuedStampIsKnown(h, e);
      HeadWasAccepted(r, list);
      HeadIsCausal(h, r, c, list);
      RestIsDelta(h, r, c, list);
      TakeKeepsOk(h, r, e);
      GapFreeExactlyWhenCausal(h, r, e);
      AcceptedBatchLeavesNoGap(h, Take(r, e), c, list[1..]);
    }
  }

  /** A causal answer between gap-free journals is taken whole, merges the clocks and leaves no gap. */
  lemma CausalAnswerIsTaken(h: Issued, r: Replica, q: Replica, batch: seq<Entry>)
    requires WellStamped(h) && DistinctStamps(h) && ReplicaOk(h, r) && ReplicaOk(h, q) && GapFree(h, r) && GapFree(h, q)
    requires batch == Deltas.Query(Listing(q), r.clock) && Ledgers.CausalOrder(batch)
    ensures var t := AdmitAll(r, batch);
            && t.saved == r.saved + batch && ReplicaOk(h, t) && GapFree(h, t)
            && t.clock == Merge(r.clock, q.clock) == MergeAll(r.clock, batch) && AllNext(r.clock, batch)
  {
    ListingIsDistinct(h, q);
    QueryKeepsDistinct(Listing(q), r.clock);
    AnswerIsDelta(h, r.clock, q, batch);
    DeltaHasNoHoles(h, r.clock, q.clock, batch);
    AllAcceptedExactlyWhenCausal(h, r, batch);
    CausalIsIncreasing(h, batch);
    BatchMergesClocks(h, r, q.clock, batch);
    AcceptedBatchLeavesNoGap(h, r, q.clock, batch);
    AllAcceptedIsAllNext(r, batch);
  }

  // A whole side moves together

  /** All brokers of the side, hubs included, have the clock `c`. */
  ghost predicate SideCounts(s: Nodes, side: set<Id>, c: Clock) {
    && (forall x | x in side && x in s :: ClockOf(s[x]) == c)
    && (forall x | x in side && x in s && s[x].Store? :: ClockIsJoin(s[x].r))
  }

  ghost predicate NoStores(s: Nodes, side: set<Id>) { forall x | x in side && x in s :: s[x].Hub? }

  /** An entry that is next for a side is taken by every broker of it. */
  lemma EntryMovesSide(w: Wiring, far: Sides, s: Nodes, n: Id, source: nat, e: Entry, c: Clock, x: Id)
    requires Forest(w, far) && w.Keys == s.Keys && n in w && source < |w[n]| && SideCounts(s, Behind(far, n, source), c)
    requires IsNext(e.clock, c, e.data.id) || NoStores(s, Behind(far, n, source))
    requires x in w
    ensures InsertInForest(w, far, s, n, source, e)[x] == if x in Behind(far, n, source) then Passed(s[x], e) else s[x]
  {
    InsertTakesOpen(w, far, s, n, source, e, x);
    if x in Behind(far, n, source) {
      forall y | y in Behind(far, n, source) && y in w ensures Opens(s[y], e) {
        if s[y].Store? {
          assert ClockOf(s[y]) == c;
          DuplicateBranchUnreachable(s[y].r, e);
        }
      }
      OpenWithin(w, far, s, e, n, source, x);
    }
  }

  lemma SideStillCounts(s: Nodes, t: Nodes, side: set<Id>, e: Entry, c: Clock)
    requires SideCounts(s, side, c) && s.Keys == t.Keys && forall x | x in side && x in s :: t[x] == Passed(s[x], e)
    ensures SideCounts(t, side, Merge(c, e.clock))
  {
    forall x | x in side && x in t && t[x].Store? ensures ClockIsJoin(t[x].r) {
      TakeKeepsJoin(s[x].r, e);
    }
  }

  lemma {:induction false} BatchMovesSide(w: Wiring, far: Sides, s: Nodes, n: Id, source: nat, list: seq<Entry>, c: Clock, x: Id)
    requires Forest(w, far) && w.Keys == s.Keys && n in w && source < |w[n]| && SideCounts(s, Behind(far, n, source), c)
    requires AllNext(c, list) || NoStores(s, Behind(far, n, source))
    requires x in w
    ensures var r := BatchInForest(w, far, s, n, source, list);
            && (x in Behind(far, n, source) ==> ClockOf(r[x]) == MergeAll(c, list))
            && (x !in Behind(far, n, source) ==> r[x] == s[x])
    decreases list
  {
    if list != [] {
      var t := InsertInForest(w, far, s, n, source, list[0]);
      forall y | y in w ensures t[y] == if y in Behind(far, n, source) then Passed(s[y], list[0]) else s[y] {
        EntryMovesSide(w, far, s, n, source, list[0], c, y);
      }
      SideStillCounts(s, t, Behind(far, n, source), list[0], c);
      BatchMovesSide(w, far, t, n, source, list[1..], Merge(c, list[0].clock), x);
    }
  }

  // A causal connect

  lemma BrokerInStep(own: set<Id>, w: Wiring, far: Sides, s: Nodes, h: Issued, n: Id, x: Id)
    requires Forest(w, far) && w.Keys == s.Keys && Synced(own, w, far, s, h) && n in w && x in Tree(far, n) && x in s
    ensures ClockOf(s[x]) == ClockOf(s[n])
    ensures s[x].Store? ==> ReplicaOk(h, s[x].r) && GapFree(h, s[x].r) && s[x].r.clock == ClockOf(s[n])
  {
    if s[x].Store? {
      assert Journals(s)[x] == s[x].r;
    }
  }

  lemma SideInStep(own: set<Id>, w: Wiring, far: Sides, s: Nodes, h: Issued, n: Id)
    requires Forest(w, far) && w.Keys == s.Keys && Synced(own, w, far, s, h) && n in w
    ensures SideCounts(s, Tree(far, n), ClockOf(s[n]))
  {
    forall x | x in Tree(far, n) && x in s ensures ClockOf(s[x]) == ClockOf(s[n]) && (s[x].Store? ==> ClockIsJoin(s[x].r)) {
      BrokerInStep(own, w, far, s, h, n, x);
    }
  }

  lemma TreeIsRepresented(own: set<Id>, w: Wiring, far: Sides, s: Nodes, h: Issued, n: Id) returns (r: Replica)
    requires Forest(w, far) && w.Keys == s.Keys && Owns(own, s) && Synced(own, w, far, s, h) && n in w
    ensures r.clock == ClockOf(s[n]) && ReplicaOk(h, r) && GapFree(h, r)
  {
    if x :| x in Tree(far, n) && x in s && s[x].Store? {
      r := s[x].r;
      BrokerInStep(own, w, far, s, h, n, x);
    } else {
      assert !HasJournal(own, Tree(far, n)) by {
        if y :| y in Tree(far, n) && y in own {
          TreesPartition(w, far, n, y);
        }
      }
      r := Replica(File, map[], []);
      NothingIsGapFree(h, r);
    }
  }

  lemma NothingIsGapFree(h: Issued, r: Replica)
    requires r.clock == map[] && r.saved == []
    ensures ReplicaOk(h, r) && GapFree(h, r)
  {}

  /** The journals of a side are without gaps and count `c` after the batch. */
  ghost predicate EndsWell(s: Nodes, h: Issued, side: set<Id>, batch: seq<Entry>, c: Clock) {
    forall x | x in side && x in s && s[x].Store? :: EndedWell(h, AdmitAll(s[x].r, batch), c)
  }

  ghost predicate EndedWell(h: Issued, r: Replica, c: Clock) { ReplicaOk(h, r) && GapFree(h, r) && r.clock == c }

  ghost predicate CausalDelta(s: Nodes, h: Issued, z: Id, from: Clock, batch: seq<Entry>) {
    && WellStamped(h) && DistinctStamps(h) && IsDeltaOf(s, z, from, batch) && Ledgers.CausalOrder(batch)
    && ReplicaOk(h, s[z].r) && GapFree(h, s[z].r)
  }

  lemma CausalDeltaEndsWell(own: set<Id>, w: Wiring, far: Sides, s: Nodes, h: Issued, a: Id, z: Id, batch: seq<Entry>)
    requires Forest(w, far) && w.Keys == s.Keys && Owns(own, s) && Synced(own, w, far, s, h) && a in w
    requires CausalDelta(s, h, z, ClockOf(s[a]), batch)
    ensures var c := Merge(ClockOf(s[a]), s[z].r.clock);
            AllNext(ClockOf(s[a]), batch) && MergeAll(ClockOf(s[a]), batch) == c && EndsWell(s, h, Tree(far, a), batch, c)
  {
    var r := TreeIsRepresented(own, w, far, s, h, a);
    CausalAnswerIsTaken(h, r, s[z].r, batch);
    forall x | x in Tree(far, a) && x in s && s[x].Store?
      ensures EndedWell(h, AdmitAll(s[x].r, batch), Merge(ClockOf(s[a]), s[z].r.clock))
    {
      BrokerInStep(own, w, far, s, h, a, x);
      CausalAnswerIsTaken(h, s[x].r, s[z].r, batch);
    }
  }

  /** What one end is sent in a causal connect: a causal delta of the other tree, or nothing if that has no journals. */
  ghost predicate CausalBatch(own: set<Id>, far: Sides, s: Nodes, a: Id, b: Id, batch: seq<Entry>)
    requires a in s && b in far
  {
    && Ledgers.CausalOrder(batch)
    && if HasJournal(own, Tree(far, b)) then exists z :: z in Tree(far, b) && IsDeltaOf(s, z, ClockOf(s[a]), batch)
       else batch == []
  }

  /** Where its tree's clock ends. */
  lemma CausalEnd(own: set<Id>, w: Wiring, far: Sides, s: Nodes, h: Issued, a: Id, b: Id, batch: seq<Entry>)
    requires Forest(w, far) && w.Keys == s.Keys && Owns(own, s) && Synced(own, w, far, s, h) && a in w && b in w
    requires CausalBatch(own, far, s, a, b, batch)
    ensures var c := Merge(ClockOf(s[a]), ClockOf(s[b]));
            AllNext(ClockOf(s[a]), batch) && MergeAll(ClockOf(s[a]), batch) == c && EndsWell(s, h, Tree(far, a), batch, c)
  {
    if HasJournal(own, Tree(far, b)) {
      var z :| z in Tree(far, b) && IsDeltaOf(s, z, ClockOf(s[a]), batch);
      BrokerInStep(own, w, far, s, h, b, z);
      CausalDeltaEndsWell(own, w, far, s, h, a, z, batch);
    } else {
      NothingSent(own, w, far, s, h, a);
    }
  }

  lemma NothingSent(own: set<Id>, w: Wiring, far: Sides, s: Nodes, h: Issued, a: Id)
    requires Forest(w, far) && w.Keys == s.Keys && Synced(own, w, far, s, h) && a in w
    ensures EndsWell(s, h, Tree(far, a), [], ClockOf(s[a])) && Merge(ClockOf(s[a]), map[]) == ClockOf(s[a])
  {
    MergeWithNothing(ClockOf(s[a]));
    forall x | x in Tree(far, a) && x in s && s[x].Store? ensures EndedWell(h, AdmitAll(s[x].r, []), ClockOf(s[a])) {
      BrokerInStep(own, w, far, s, h, a, x);
    }
  }

  lemma MergeWithNothing(c: Clock)
    ensures Merge(c, map[]) == c && Merge(map[], c) == c
  {}

  lemma TreesAfterJoin(w: Wiring, far: Sides, a: Id, b: Id, n: Id)
    requires Joinable(w, far, a, b) && a != b && n in w
    ensures Tree(JoinFar(far, a, b), n) ==
            if n in Tree(far, a) || n in Tree(far, b) then Tree(far, a) + Tree(far, b) else Tree(far, n)
  {
    assert |w[n]| > 0 && n in Tree(far, n) && a in Tree(far, a) && b in Tree(far, b);
    var side := JoinedSide(far, a, b, Tree(far, n));
    forall x ensures x in Tree(JoinFar(far, a, b), n) <==> x in side {
      if x in Tree(JoinFar(far, a, b), n) {
        GrownBehind(w, far, a, b, n, 0, x);
      }
      if x in side {
        StillBehind(w, far, a, b, n, 0, x);
      }
    }
    if n in Tree(far, a) {
      TreesPartition(w, far, a, n);
    } else if n in Tree(far, b) {
      TreesPartition(w, far, b, n);
      EndsDiffer(w, far, a, b);
    } else {
      NotInTree(w, far, a, n);
      NotInTree(w, far, b, n);
    }
  }

  lemma NotInTree(w: Wiring, far: Sides, a: Id, n: Id)
    requires Forest(w, far) && a in w && n in w && n !in Tree(far, a)
    ensures a !in Tree(far, n)
  {
    DifferentTreesAreDisjoint(w, far, a, n);
  }

  /** Where every broker's clock is after both batches. */
  lemma ExchangeMovesSides(w: Wiring, far: Sides, s: Nodes, a: Id, p: nat, b: Id, q: nat, left: set<Id>, right: set<Id>,
                           fromB: seq<Entry>, fromA: seq<Entry>, ca: Clock, cb: Clock, x: Id)
    requires Forest(w, far) && w.Keys == s.Keys && a in w && b in w && p < |w[a]| && q < |w[b]|
    requires Behind(far, a, p) == left && Behind(far, b, q) == right && left !! right
    requires SideCounts(s, left, ca) && SideCounts(s, right, cb) && AllNext(ca, fromB) && AllNext(cb, fromA) && x in w
    ensures var r := BatchInForest(w, far, BatchInForest(w, far, s, a, p, fromB), b, q, fromA);
            ClockOf(r[x]) == if x in left then MergeAll(ca, fromB) else if x in right then MergeAll(cb, fromA) else ClockOf(s[x])
  {
    var t := BatchInForest(w, far, s, a, p, fromB);
    forall y | y in w && y !in left ensures t[y] == s[y] {
      BatchMovesSide(w, far, s, a, p, fromB, ca, y);
    }
    BatchMovesSide(w, far, s, a, p, fromB, ca, x);
    BatchMovesSide(w, far, t, b, q, fromA, cb, x);
  }

  /** Both trees, and no other broker, now count `c`, and every journal is as it should be. */
  ghost predicate Ended(s: Nodes, t: Nodes, h: Issued, both: set<Id>, c: Clock) {
    s.Keys == t.Keys && forall x | x in s :: EndedAt(s[x], t[x], h, x in both, c)
  }

  ghost predicate EndedAt(before: Node, after: Node, h: Issued, moved: bool, c: Clock) {
    && (after.Store? <==> before.Store?)
    && ClockOf(after) == (if moved then c else ClockOf(before))
    && (after.Store? ==> if moved then EndedWell(h, after.r, c) else after == before)
  }

  lemma BrokerEnds(own: set<Id>, m: Mesh, h: Issued, a: Id, b: Id, c: Clock, x: Id)
    requires Upright(own, m) && Linkable(m.g.w, m.g.far, m.g.t, a, b) && Synced(own, m.g.w, m.g.far, m.s, h) && x in m.s
    requires AllNext(ClockOf(m.s[a]), SentToAsker(own, m, a, b)) && AllNext(ClockOf(m.s[b]), SentByAsker(own, m, a, b))
    requires MergeAll(ClockOf(m.s[a]), SentToAsker(own, m, a, b)) == c == MergeAll(ClockOf(m.s[b]), SentByAsker(own, m, a, b))
    requires EndsWell(m.s, h, Tree(m.g.far, a), SentToAsker(own, m, a, b), c)
    requires EndsWell(m.s, h, Tree(m.g.far, b), SentByAsker(own, m, a, b), c)
    ensures x in Connected(own, m, a, b).s
    ensures EndedAt(m.s[x], Connected(own, m, a, b).s[x], h, x in Tree(m.g.far, a) + Tree(m.g.far, b), c)
  {
    ConnectMovesTrees(own, m, h, a, b, x);
    ConnectKeepsKinds(own, m, a, b, x);
    if m.s[x].Store? {
      ConnectReachesJournals(own, m, h, a, b, x);
    }
  }

  lemma ExchangeEnds(own: set<Id>, m: Mesh, h: Issued, a: Id, b: Id)
    requires Upright(own, m) && Linkable(m.g.w, m.g.far, m.g.t, a, b) && Synced(own, m.g.w, m.g.far, m.s, h)
    requires Ledgers.CausalOrder(SentToAsker(own, m, a, b)) && Ledgers.CausalOrder(SentByAsker(own, m, a, b))
    ensures Ended(m.s, Connected(own, m, a, b).s, h, Tree(m.g.far, a) + Tree(m.g.far, b), Merge(ClockOf(m.s[a]), ClockOf(m.s[b])))
  {
    var Routes(w, far, t) := m.g;
    ExchangedDeltas(own, m, a, b);
    CausalEnd(own, w, far, m.s, h, a, b, SentToAsker(own, m, a, b));
    CausalEnd(own, w, far, m.s, h, b, a, SentByAsker(own, m, a, b));
    MergeCommutes(ClockOf(m.s[a]), ClockOf(m.s[b]));
    ConnectedKeys(own, m, a, b);
    forall x | x in m.s
      ensures EndedAt(m.s[x], Connected(own, m, a, b).s[x], h, x in Tree(far, a) + Tree(far, b), Merge(ClockOf(m.s[a]), ClockOf(m.s[b])))
    {
      BrokerEnds(own, m, h, a, b, Merge(ClockOf(m.s[a]), ClockOf(m.s[b])), x);
    }
  }

  lemma ConnectedKeys(own: set<Id>, m: Mesh, a: Id, b: Id)
    requires Upright(own, m) && Linkable(m.g.w, m.g.far, m.g.t, a, b)
    ensures Connected(own, m, a, b).s.Keys == m.s.Keys
  {
    ConnectedIs(own, m, a, b);
  }

  lemma ConnectKeepsKinds(own: set<Id>, m: Mesh, a: Id, b: Id, x: Id)
    requires Upright(own, m) && Linkable(m.g.w, m.g.far, m.g.t, a, b) && x in m.s
    ensures x in Connected(own, m, a, b).s && Connected(own, m, a, b).s[x].Store? == m.s[x].Store?
  {
    var Routes(w, far, t) := m.g;
    ConnectedIs(own, m, a, b);
    NewPort(w, far, a, b);
    BatchKindsStay(Join(w, a, b), JoinFar(far, a, b), m.s, a, |w[a]|, SentToAsker(own, m, a, b));
    BatchKindsStay(Join(w, a, b), JoinFar(far, a, b),
                   BatchInForest(Join(w, a, b), JoinFar(far, a, b), m.s, a, |w[a]|, SentToAsker(own, m, a, b)),
                   b, |w[b]|, SentByAsker(own, m, a, b));
  }

  lemma ConnectMovesTrees(own: set<Id>, m: Mesh, h: Issued, a: Id, b: Id, x: Id)
    requires Upright(own, m) && Linkable(m.g.w, m.g.far, m.g.t, a, b) && Synced(own, m.g.w, m.g.far, m.s, h) && x in m.s
    requires AllNext(ClockOf(m.s[a]), SentToAsker(own, m, a, b)) && AllNext(ClockOf(m.s[b]), SentByAsker(own, m, a, b))
    ensures x in Connected(own, m, a, b).s
    ensures ClockOf(Connected(own, m, a, b).s[x]) ==
            if x in Tree(m.g.far, a) then MergeAll(ClockOf(m.s[a]), SentToAsker(own, m, a, b))
            else if x in Tree(m.g.far, b) then MergeAll(ClockOf(m.s[b]), SentByAsker(own, m, a, b))
            else ClockOf(m.s[x])
  {
    var Routes(w, far, t) := m.g;
    ConnectedIs(own, m, a, b);
    NewPort(w, far, a, b);
    NewSideOk(w, far, a, b);
    EndsDiffer(w, far, a, b);
    SideInStep(own, w, far, m.s, h, a);
    SideInStep(own, w, far, m.s, h, b);
    ExchangeMovesSides(Join(w, a, b), JoinFar(far, a, b), m.s, a, |w[a]|, b, |w[b]|, Tree(far, a), Tree(far, b),
                       SentToAsker(own, m, a, b), SentByAsker(own, m, a, b), ClockOf(m.s[a]), ClockOf(m.s[b]), x);
  }

  lemma EndedKeepsInv(s: Nodes, t: Nodes, h: Issued, both: set<Id>, c: Clock)
    requires Inv(Sys(Journals(s), h)) && WorldGapFree(h, Journals(s)) && Ended(s, t, h, both, c)
    requires forall x | x in both && x in s :: Leq(ClockOf(s[x]), c)
    ensures Inv(Sys(Journals(t), h)) && WorldGapFree(h, Journals(t))
  {
    var v, u := Journals(s), Journals(t);
    forall x | x in s ensures (x in u <==> x in v) && (x in u ==> JournalOk(h, u[x], x)) {
      assert EndedAt(s[x], t[x], h, x in both, c);
      if x in u {
        assert v[x] == s[x].r && ReplicaOk(h, v[x]) && GapFree(h, v[x]);
        JournalEndsOk(h, s[x], t[x], x in both, c, x);
      }
    }
    assert u.Keys == v.Keys;
    EachJournalOk(h, v, u);
  }

  ghost predicate JournalOk(h: Issued, r: Replica, x: Id) { ReplicaOk(h, r) && GapFree(h, r) && At(r.clock, x) == Count(h, x) }

  lemma EachJournalOk(h: Issued, v: World, u: World)
    requires Inv(Sys(v, h)) && u.Keys == v.Keys && forall x | x in u :: JournalOk(h, u[x], x)
    ensures Inv(Sys(u, h)) && WorldGapFree(h, u)
  {}

  lemma JournalEndsOk(h: Issued, before: Node, after: Node, moved: bool, c: Clock, x: Id)
    requires EndedAt(before, after, h, moved, c) && before.Store? && (moved ==> Leq(ClockOf(before), c))
    requires ReplicaOk(h, before.r) && GapFree(h, before.r) && At(before.r.clock, x) == Count(h, x)
    ensures JournalOk(h, after.r, x)
  {
    if moved {
      assert Known(h, after.r.clock) && Leq(before.r.clock, after.r.clock);
    }
  }

  lemma JoinedClocks(own: set<Id>, w: Wiring, far: Sides, s: Nodes, t: Nodes, h: Issued, a: Id, b: Id, n: Id, x: Id)
    requires Joinable(w, far, a, b) && a != b && w.Keys == s.Keys && Synced(own, w, far, s, h)
    requires Ended(s, t, h, Tree(far, a) + Tree(far, b), Merge(ClockOf(s[a]), ClockOf(s[b])))
    requires n in t && x in Tree(JoinFar(far, a, b), n) && x in t
    ensures ClockOf(t[n]) == ClockOf(t[x])
  {
    TreesAfterJoin(w, far, a, b, n);
    assert EndedAt(s[n], t[n], h, n in Tree(far, a) + Tree(far, b), Merge(ClockOf(s[a]), ClockOf(s[b])));
    assert EndedAt(s[x], t[x], h, x in Tree(far, a) + Tree(far, b), Merge(ClockOf(s[a]), ClockOf(s[b])));
    if n !in Tree(far, a) + Tree(far, b) {
      OutsideStaysOutside(w, far, a, n, x);
      OutsideStaysOutside(w, far, b, n, x);
    }
  }

  lemma OutsideStaysOutside(w: Wiring, far: Sides, a: Id, n: Id, x: Id)
    requires Forest(w, far) && a in w && n in w && n !in Tree(far, a) && x in Tree(far, n)
    ensures x !in Tree(far, a)
  {
    DifferentTreesAreDisjoint(w, far, a, n);
  }

  lemma JoinedWithoutJournals(own: set<Id>, w: Wiring, far: Sides, s: Nodes, t: Nodes, h: Issued, a: Id, b: Id, n: Id)
    requires Joinable(w, far, a, b) && a != b && w.Keys == s.Keys && Synced(own, w, far, s, h)
    requires Ended(s, t, h, Tree(far, a) + Tree(far, b), Merge(ClockOf(s[a]), ClockOf(s[b])))
    requires n in t && !HasJournal(own, Tree(JoinFar(far, a, b), n))
    ensures ClockOf(t[n]) == map[]
  {
    TreesAfterJoin(w, far, a, b, n);
    assert EndedAt(s[n], t[n], h, n in Tree(far, a) + Tree(far, b), Merge(ClockOf(s[a]), ClockOf(s[b])));
    if n in Tree(far, a) + Tree(far, b) {
      var both := Tree(JoinFar(far, a, b), n);
      assert forall x | x in Tree(far, a) || x in Tree(far, b) :: x in both;
      assert !HasJournal(own, Tree(far, a)) && !HasJournal(own, Tree(far, b));
      MergeWithNothing(map[]);
    }
  }

  lemma JoinedStaysInStep(own: set<Id>, w: Wiring, far: Sides, s: Nodes, t: Nodes, h: Issued, a: Id, b: Id)
    requires Joinable(w, far, a, b) && a != b && w.Keys == s.Keys && Synced(own, w, far, s, h)
    requires Ended(s, t, h, Tree(far, a) + Tree(far, b), Merge(ClockOf(s[a]), ClockOf(s[b])))
    requires Forest(Join(w, a, b), JoinFar(far, a, b))
    ensures Synced(own, Join(w, a, b), JoinFar(far, a, b), t, h)
  {
    var both, c := Tree(far, a) + Tree(far, b), Merge(ClockOf(s[a]), ClockOf(s[b]));
    MergeIsLeastUpperBound(ClockOf(s[a]), ClockOf(s[b]));
    forall x | x in both && x in s ensures Leq(ClockOf(s[x]), c) {
      BrokerInStep(own, w, far, s, h, if x in Tree(far, a) then a else b, x);
    }
    EndedKeepsInv(s, t, h, both, c);
    forall n, x | n in t && x in Tree(JoinFar(far, a, b), n) && x in t ensures ClockOf(t[n]) == ClockOf(t[x]) {
      JoinedClocks(own, w, far, s, t, h, a, b, n, x);
    }
    forall n | n in t && !HasJournal(own, Tree(JoinFar(far, a, b), n)) ensures ClockOf(t[n]) == map[] {
      JoinedWithoutJournals(own, w, far, s, t, h, a, b, n);
    }
  }

  /** A causal connect of two trees in step leaves one tree in step. */
  lemma ConnectKeepsSynced(own: set<Id>, m: Mesh, h: Issued, a: Id, b: Id)
    requires Upright(own, m) && Linkable(m.g.w, m.g.far, m.g.t, a, b) && Synced(own, m.g.w, m.g.far, m.s, h)
    requires Ledgers.CausalOrder(SentToAsker(own, m, a, b)) && Ledgers.CausalOrder(SentByAsker(own, m, a, b))
    ensures var r := Connected(own, m, a, b);
            Upright(own, r) && Synced(own, r.g.w, r.g.far, r.s, h)
  {
    var Routes(w, far, t) := m.g;
    ConnectingIsMeeting(own, m, a, b);
    ActKeepsUpright(own, m, Meet(a, b, SentToAsker(own, m, a, b), SentByAsker(own, m, a, b)), Connected(own, m, a, b));
    ExchangeEnds(own, m, h, a, b);
    ConnectedIs(own, m, a, b);
    JoinedStaysInStep(own, w, far, m.s, Connected(own, m, a, b).s, h, a, b);
  }

  // A booking

  /** Systems of journals that keep the invariant and have no gaps. */
  type Sound = sys: Sys | Inv(sys) && AllGapFree(sys) ghost witness Sys(map[], map[])

  lemma DeliverOne(sys: Sound, n: Id, e: Entry) returns (next: Sound)
    requires n in sys.world && IsIssued(sys.issued, e) && Causal(sys.world[n], e)
    ensures next == Sys(sys.world[n := Admit(sys.world[n], e)], sys.issued)
  {
    DeliverKeepsInv(sys, n, e);
    DeliverKeepsGapFree(sys, n, e);
    next := Next(sys, Deliver(n, e));
  }

  ghost function AdmitOver(v: World, todo: set<Id>, e: Entry): World {
    map n | n in v :: if n in todo then Admit(v[n], e) else v[n]
  }

  ghost predicate CausalOver(v: World, todo: set<Id>, e: Entry) {
    todo <= v.Keys && forall n | n in todo :: Causal(v[n], e)
  }

  lemma NoneLeft(v: World, e: Entry)
    ensures AdmitOver(v, {}, e) == v
  {}

  lemma OneLess(v: World, todo: set<Id>, e: Entry, n: Id)
    requires n in todo && CausalOver(v, todo, e)
    ensures n in v && Causal(v[n], e)
    ensures var u := v[n := Admit(v[n], e)];
            AdmitOver(u, todo - {n}, e) == AdmitOver(v, todo, e) && CausalOver(u, todo - {n}, e)
  {}

  /** Delivering an issued entry in causal order to any number of journals. */
  lemma {:induction false} DeliverToAll(sys: Sound, e: Entry, todo: set<Id>) returns (next: Sound)
    requires IsIssued(sys.issued, e) && CausalOver(sys.world, todo, e)
    ensures next == Sys(AdmitOver(sys.world, todo, e), sys.issued)
    decreases todo
  {
    if todo == {} {
      NoneLeft(sys.world, e);
      next := sys;
    } else {
      var n :| n in todo;
      var one := DeliverFirst(sys, e, todo, n);
      next := DeliverToAll(one, e, todo - {n});
    }
  }

  lemma DeliverFirst(sys: Sound, e: Entry, todo: set<Id>, n: Id) returns (one: Sound)
    requires IsIssued(sys.issued, e) && CausalOver(sys.world, todo, e) && n in todo
    ensures one.issued == sys.issued && CausalOver(one.world, todo - {n}, e)
    ensures AdmitOver(one.world, todo - {n}, e) == AdmitOver(sys.world, todo, e)
  {
    OneLess(sys.world, todo, e, n);
    one := DeliverOne(sys, n, e);
  }

  /** What a booking leaves at one broker. */
  lemma BookingMoves(own: set<Id>, w: Wiring, far: Sides, s: Nodes, h: Issued, a: Id, data: Data, x: Id)
    requires Forest(w, far) && w.Keys == s.Keys && Synced(own, w, far, s, h) && a in w && s[a].Store? && x in w
    ensures AppendAt(w, far, s, a, data)[x] == if x in Tree(far, a) then Passed(s[x], StampAt(s, a, data)) else s[x]
  {
    SideInStep(own, w, far, s, h, a);
    TickIsNext(ClockOf(s[a]), data.id);
    EntryMovesSide(w, far, s, a, 0, StampAt(s, a, data), ClockOf(s[a]), x);
  }

  /** The booking as a step of the system of journals. */
  lemma BookingStep(sys: Sound, a: Id, data: Data) returns (next: Sound)
    requires a in sys.world && data.id == a
    ensures var e := Stamped(sys.world[a], data);
            IsIssued(next.issued, e) && next.world == sys.world[a := Take(sys.world[a], e)]
  {
    assert ReplicaOk(sys.issued, sys.world[a]);
    AppendIsAdmitted(sys.world[a], data);
    AppendKeepsInv(sys, a, data);
    AppendKeepsGapFree(sys, a, data);
    next := Next(sys, Append(a, data));
  }

  lemma StampMoves(r: Replica, c: Clock, e: Entry)
    requires r.clock == c && ClockIsJoin(r) && e.clock == Tick(c, e.data.id)
    ensures Causal(r, e) && Admits(r, e)
  {
    TickIsNext(c, e.data.id);
    DuplicateBranchUnreachable(r, e);
  }

  /** The journals of the booker's tree but the booker itself. */
  ghost function Others(far: Sides, s: Nodes, a: Id): set<Id>
    requires a in far
  {
    set x | x in s && s[x].Store? && x in Tree(far, a) && x != a
  }

  /** What a booking leaves at one journal, before (`v`) and after (`u`). */
  ghost predicate BookedAt(v: World, u: World, others: set<Id>, a: Id, e: Entry, x: Id) {
    && (x in u <==> x in v)
    && (x in others ==> x in v && Causal(v[x], e))
    && (x in u ==> u[x] == if x in others then Admit(v[x], e) else if x == a then Take(v[x], e) else v[x])
  }

  lemma BookedJournal(own: set<Id>, w: Wiring, far: Sides, s: Nodes, h: Issued, a: Id, data: Data, r: Nodes, x: Id)
    requires Forest(w, far) && w.Keys == s.Keys && Synced(own, w, far, s, h)
    requires a in w && s[a].Store? && r == AppendAt(w, far, s, a, data) && x in s
    ensures BookedAt(Journals(s), Journals(r), Others(far, s, a), a, StampAt(s, a, data), x)
  {
    assert a in Tree(far, a);
    BookingMoves(own, w, far, s, h, a, data, x);
    if x in Tree(far, a) && s[x].Store? {
      BrokerInStep(own, w, far, s, h, a, x);
      StampMoves(s[x].r, ClockOf(s[a]), Entry(Tick(ClockOf(s[a]), data.id), data));
    }
  }

  lemma BookedOver(v: World, u: World, others: set<Id>, a: Id, e: Entry)
    requires a in v && a !in others && others <= v.Keys && forall x | x in v || x in u :: BookedAt(v, u, others, a, e, x)
    ensures var taken := v[a := Take(v[a], e)]; CausalOver(taken, others, e) && u == AdmitOver(taken, others, e)
  {
    var taken := v[a := Take(v[a], e)];
    assert u.Keys == v.Keys by {
      assert forall x | x in v || x in u :: BookedAt(v, u, others, a, e, x);
    }
    forall n | n in others ensures Causal(taken[n], e) {
      assert BookedAt(v, u, others, a, e, n);
    }
    forall n | n in u ensures u[n] == AdmitOver(taken, others, e)[n] {
      assert BookedAt(v, u, others, a, e, n);
    }
  }

  lemma JournalsTakeBooking(sys: Sound, a: Id, data: Data, others: set<Id>, u: World) returns (next: Sound)
    requires a in sys.world && data.id == a
    requires var e := Stamped(sys.world[a], data);
             var taken := sys.world[a := Take(sys.world[a], e)];
             CausalOver(taken, others, e) && u == AdmitOver(taken, others, e)
    ensures next.world == u
  {
    var one := BookingStep(sys, a, data);
    next := DeliverToAll(one, Stamped(sys.world[a], data), others);
  }

  lemma BookedWorld(own: set<Id>, w: Wiring, far: Sides, s: Nodes, h: Issued, a: Id, data: Data, r: Nodes)
    requires Forest(w, far) && w.Keys == s.Keys && Synced(own, w, far, s, h)
    requires a in w && s[a].Store? && r == AppendAt(w, far, s, a, data)
    ensures var v, e := Journals(s), StampAt(s, a, data);
            var taken := v[a := Take(v[a], e)];
            CausalOver(taken, Others(far, s, a), e) && Journals(r) == AdmitOver(taken, Others(far, s, a), e)
  {
    forall x | x in s ensures BookedAt(Journals(s), Journals(r), Others(far, s, a), a, StampAt(s, a, data), x) {
      BookedJournal(own, w, far, s, h, a, data, r, x);
    }
    BookedOver(Journals(s), Journals(r), Others(far, s, a), a, StampAt(s, a, data));
  }

  lemma BookingKeepsJournals(own: set<Id>, w: Wiring, far: Sides, s: Nodes, h: Issued, a: Id, data: Data, r: Nodes) returns (k: Issued)
    requires Forest(w, far) && w.Keys == s.Keys && Synced(own, w, far, s, h)
    requires a in w && s[a].Store? && r == AppendAt(w, far, s, a, data) && data.id == a
    ensures Inv(Sys(Journals(r), k)) && WorldGapFree(k, Journals(r))
  {
    BookedWorld(own, w, far, s, h, a, data, r);
    k := BookingIsSound(Journals(s), h, a, data, Others(far, s, a), Journals(r));
  }

  lemma BookingIsSound(v: World, h: Issued, a: Id, data: Data, others: set<Id>, u: World) returns (k: Issued)
    requires Inv(Sys(v, h)) && WorldGapFree(h, v) && a in v && data.id == a
    requires var taken := v[a := Take(v[a], Stamped(v[a], data))];
             CausalOver(taken, others, Stamped(v[a], data)) && u == AdmitOver(taken, others, Stamped(v[a], data))
    ensures Inv(Sys(u, k)) && WorldGapFree(k, u)
  {
    var next := JournalsTakeBooking(Sys(v, h), a, data, others, u);
    k := next.issued;
  }

  lemma BookingKeepsClocks(own: set<Id>, w: Wiring, far: Sides, s: Nodes, h: Issued, a: Id, data: Data, r: Nodes)
    requires Forest(w, far) && w.Keys == s.Keys && Owns(own, s) && Synced(own, w, far, s, h)
    requires a in w && s[a].Store? && r == AppendAt(w, far, s, a, data)
    ensures TreesCountAlike(far, r) && BareTreesAreBlank(own, far, r)
  {
    forall n, x | n in r && x in Tree(far, n) && x in r ensures ClockOf(r[n]) == ClockOf(r[x]) {
      BookedClocks(own, w, far, s, h, a, data, n, x);
    }
    forall n | n in r && !HasJournal(own, Tree(far, n)) ensures ClockOf(r[n]) == map[] {
      BookerIsJournal(own, w, far, s, a, n);
      BookingMoves(own, w, far, s, h, a, data, n);
    }
  }

  /** A booking leaves every tree in step. */
  lemma BookingKeepsSynced(own: set<Id>, w: Wiring, far: Sides, s: Nodes, h: Issued, a: Id, data: Data) returns (k: Issued)
    requires Forest(w, far) && w.Keys == s.Keys && Owns(own, s) && Synced(own, w, far, s, h)
    requires a in w && s[a].Store? && data.id == a
    ensures Synced(own, w, far, AppendAt(w, far, s, a, data), k)
  {
    BookingKeepsClocks(own, w, far, s, h, a, data, AppendAt(w, far, s, a, data));
    k := BookingKeepsJournals(own, w, far, s, h, a, data, AppendAt(w, far, s, a, data));
  }

  lemma BookerIsJournal(own: set<Id>, w: Wiring, far: Sides, s: Nodes, a: Id, n: Id)
    requires Forest(w, far) && w.Keys == s.Keys && Owns(own, s) && a in w && s[a].Store? && n in w
    ensures n in Tree(far, a) ==> HasJournal(own, Tree(far, n))
  {
    if n in Tree(far, a) {
      TreesPartition(w, far, a, n);
      assert a in Tree(far, a) && a in own;
    }
  }

  lemma BookedClocks(own: set<Id>, w: Wiring, far: Sides, s: Nodes, h: Issued, a: Id, data: Data, n: Id, x: Id)
    requires Forest(w, far) && w.Keys == s.Keys && Synced(own, w, far, s, h) && a in w && s[a].Store?
    requires n in w && x in Tree(far, n) && x in w
    ensures ClockOf(AppendAt(w, far, s, a, data)[n]) == ClockOf(AppendAt(w, far, s, a, data)[x])
  {
    BookingMoves(own, w, far, s, h, a, data, n);
    BookingMoves(own, w, far, s, h, a, data, x);
    InOneTree(w, far, a, n, x);
  }

  lemma InOneTree(w: Wiring, far: Sides, a: Id, n: Id, x: Id)
    requires Forest(w, far) && a in w && n in w && x in Tree(far, n)
    ensures n in Tree(far, a) <==> x in Tree(far, a)
  {
    TreesPartition(w, far, n, x);
    assert n in Tree(far, n);
    if n in Tree(far, a) {
      TreesPartition(w, far, a, n);
    }
    if x in Tree(far, a) {
      TreesPartition(w, far, a, x);
    }
  }

  // Whole lives

  /** Nothing counted, nothing saved, and no broker has id 0. */
  ghost predicate Blank(own: set<Id>, m: Mesh) {
    && Fresh(own, m) && 0 !in m.s
    && forall n | n in m.s :: ClockOf(m.s[n]) == map[]
  }

  /** A booking, or a connect that exchanges what both sides really answer, each in causal order, leads from `m` to `next`. */
  ghost predicate CausalAct(own: set<Id>, m: Mesh, act: Act, next: Mesh)
    requires Upright(own, m)
  {
    && Possible(m, act) && next == After(own, m, act)
    && (act.Meet? ==>
          && act.fromB == SentToAsker(own, m, act.a, act.b) && act.fromA == SentByAsker(own, m, act.a, act.b)
          && Ledgers.CausalOrder(act.fromB) && Ledgers.CausalOrder(act.fromA))
  }

  /** The first `k` acts start from blank brokers and are causal; `CausalLifeStaysInStep` shows that the states are upright. */
  ghost predicate CausalUpTo(own: set<Id>, states: seq<Mesh>, acts: seq<Act>, k: nat)
    decreases k
  {
    && k <= |acts| < |states|
    && if k == 0 then Blank(own, states[0])
       else CausalUpTo(own, states, acts, k - 1) && CausalAt(own, states, acts, k - 1)
  }

  ghost predicate CausalAt(own: set<Id>, states: seq<Mesh>, acts: seq<Act>, i: nat)
    requires i < |acts| < |states|
  {
    Upright(own, states[i]) ==> CausalAct(own, states[i], acts[i], states[i + 1])
  }

  ghost predicate InStep(own: set<Id>, m: Mesh, h: Issued) {
    Upright(own, m) && Synced(own, m.g.w, m.g.far, m.s, h)
  }

  lemma EmptyJournalsOk(k: Issued, u: World)
    requires 0 !in u && k.Keys == u.Keys && WellStamped(k) && DistinctStamps(k) && forall x | x in u :: JournalOk(k, u[x], x)
    ensures Inv(Sys(u, k)) && WorldGapFree(k, u)
  {}

  lemma BlankIsInStep(own: set<Id>, m: Mesh) returns (h: Issued)
    requires Blank(own, m)
    ensures InStep(own, m, h)
  {
    IsolatedIsSettled(own, m.g);
    h := map n | n in Journals(m.s) :: [];
    forall n | n in Journals(m.s) ensures JournalOk(h, Journals(m.s)[n], n) {
      assert ClockOf(m.s[n]) == map[];
      NothingIsGapFree(h, m.s[n].r);
    }
    EmptyJournalsOk(h, Journals(m.s));
  }

  lemma CausalActKeepsStep(own: set<Id>, m: Mesh, act: Act, next: Mesh, h: Issued) returns (k: Issued)
    requires InStep(own, m, h) && CausalAct(own, m, act, next)
    ensures InStep(own, next, k)
  {
    match act
    case Meet(a, b, fromB, fromA) =>
      ConnectKeepsSynced(own, m, h, a, b);
      k := h;
    case Book(at, data) =>
      BookKeepsUpright(own, m, at, data, next);
      k := BookingKeepsSynced(own, m.g.w, m.g.far, m.s, h, at, data);
  }

  ghost predicate StepsTogether(own: set<Id>, m: Mesh) { exists h :: InStep(own, m, h) }

  lemma OnwardInStep(own: set<Id>, m: Mesh, act: Act, next: Mesh)
    requires StepsTogether(own, m) && (Upright(own, m) ==> CausalAct(own, m, act, next))
    ensures StepsTogether(own, next)
  {
    var g :| InStep(own, m, g);
    var h := CausalActKeepsStep(own, m, act, next, g);
  }

  lemma {:induction false} CausalLifeStaysInStep(own: set<Id>, states: seq<Mesh>, acts: seq<Act>, k: nat)
    requires CausalUpTo(own, states, acts, k)
    ensures StepsTogether(own, states[k])
    decreases k
  {
    if k == 0 {
      var h := BlankIsInStep(own, states[0]);
    } else {
      CausalLifeStaysInStep(own, states, acts, k - 1);
      OnwardInStep(own, states[k - 1], acts[k - 1], states[k]);
    }
  }

  lemma {:induction false} CausalEarlier(own: set<Id>, states: seq<Mesh>, acts: seq<Act>, i: nat, k: nat)
    requires CausalUpTo(own, states, acts, k) && i <= k
    ensures CausalUpTo(own, states, acts, i)
    decreases k
  {
    if i < k {
      CausalEarlier(own, states, acts, i, k - 1);
    }
  }

  /** Eventual agreement of a whole life: as long as each connect answers in causal order, in every state reached the
      brokers of a tree, hubs included, count the same, and its journals hold the same entries. */
  lemma CausalLivesAgree(own: set<Id>, states: seq<Mesh>, acts: seq<Act>, k: nat, n: Id, x: Id)
    requires CausalUpTo(own, states, acts, k) && n in states[k].s && x in states[k].s
    ensures Upright(own, states[k])
    ensures x in Tree(states[k].g.far, n) ==> ClockOf(states[k].s[n]) == ClockOf(states[k].s[x])
    ensures x in Tree(states[k].g.far, n) && states[k].s[n].Store? && states[k].s[x].Store? ==>
              forall e :: e in states[k].s[n].r.saved <==> e in states[k].s[x].r.saved
  {
    CausalLifeStaysInStep(own, states, acts, k);
    var h :| InStep(own, states[k], h);
    if x in Tree(states[k].g.far, n) {
      TreeHoldsTheSame(own, states[k], h, n, x);
    }
  }

  lemma TreeHoldsTheSame(own: set<Id>, m: Mesh, h: Issued, n: Id, x: Id)
    requires InStep(own, m, h) && n in m.s && x in m.s && x in Tree(m.g.far, n)
    ensures ClockOf(m.s[n]) == ClockOf(m.s[x])
    ensures m.s[n].Store? && m.s[x].Store? ==> forall e :: e in m.s[n].r.saved <==> e in m.s[x].r.saved
  {
    assert n in Tree(m.g.far, n);
    BrokerInStep(own, m.g.w, m.g.far, m.s, h, n, n);
    BrokerInStep(own, m.g.w, m.g.far, m.s, h, n, x);
    if m.s[n].Store? && m.s[x].Store? {
      SameClockSameEntries(h, m.s[n].r, m.s[x].r);
    }
  }

  // Nothing is lost

  lemma {:induction false} BatchKeepsEntries(w: Wiring, far: Sides, s: Nodes, n: Id, source: nat, list: seq<Entry>, x: Id)
    requires Forest(w, far) && w.Keys == s.Keys && n in w && source < |w[n]| && x in w && s[x].Store?
    ensures var r := BatchInForest(w, far, s, n, source, list); r[x].Store? && s[x].r.saved <= r[x].r.saved
    decreases list
  {
    if list != [] {
      InsertTakesOpen(w, far, s, n, source, list[0], x);
      BatchKeepsEntries(w, far, InsertInForest(w, far, s, n, source, list[0]), n, source, list[1..], x);
    }
  }

  lemma ActKeepsEntries(own: set<Id>, m: Mesh, act: Act, next: Mesh, x: Id)
    requires Upright(own, m) && Possible(m, act) && next == After(own, m, act) && x in m.s && m.s[x].Store?
    ensures x in next.s && next.s[x].Store? && m.s[x].r.saved <= next.s[x].r.saved
  {
    var Routes(w, far, t) := m.g;
    match act
    case Meet(a, b, fromB, fromA) =>
      NewPort(w, far, a, b);
      var w': Wiring, far': Sides := Join(w, a, b), JoinFar(far, a, b);
      BatchKeepsEntries(w', far', m.s, a, |w[a]|, fromB, x);
      BatchKeepsEntries(w', far', BatchInForest(w', far', m.s, a, |w[a]|, fromB), b, |w[b]|, fromA, x);
    case Book(at, data) =>
      InsertTakesOpen(w, far, m.s, at, 0, StampAt(m.s, at, data), x);
  }

  lemma {:induction false} LifeKeepsEntries(own: set<Id>, states: seq<Mesh>, acts: seq<Act>, i: nat, k: nat, x: Id)
    requires CausalUpTo(own, states, acts, k) && i <= k && x in states[i].s && states[i].s[x].Store?
    ensures x in states[k].s && states[k].s[x].Store? && states[i].s[x].r.saved <= states[k].s[x].r.saved
    decreases k
  {
    if i < k {
      LifeKeepsEntries(own, states, acts, i, k - 1, x);
      LatestAct(own, states, acts, k - 1);
      ActKeepsEntries(own, states[k - 1], acts[k - 1], states[k], x);
    }
  }

  lemma LatestAct(own: set<Id>, states: seq<Mesh>, acts: seq<Act>, i: nat)
    requires CausalUpTo(own, states, acts, i + 1)
    ensures Upright(own, states[i]) && CausalAct(own, states[i], acts[i], states[i + 1])
  {
    CausalLifeStaysInStep(own, states, acts, i);
    var h :| InStep(own, states[i], h);
    assert CausalAt(own, states, acts, i);
  }

  /** What was booked at any journal at any time in a causal life is stored, data and all, by every journal that is in
      its tree by now. */
  lemma NothingBookedIsLost(own: set<Id>, states: seq<Mesh>, acts: seq<Act>, i: nat, k: nat, n: Id)
    requires CausalUpTo(own, states, acts, k) && i < k && acts[i].Book?
    requires n in states[k].s && states[k].s[n].Store?
    ensures acts[i].at in states[k].g.far
    ensures n in Tree(states[k].g.far, acts[i].at) ==>
              exists e :: e in states[k].s[n].r.saved && e.data == acts[i].data
  {
    var at := acts[i].at;
    CausalEarlier(own, states, acts, i + 1, k);
    var e := BookedIsSaved(own, states, acts, i);
    LifeKeepsEntries(own, states, acts, i + 1, k, at);
    CausalLivesAgree(own, states, acts, k, at, n);
    assert e in states[k].s[at].r.saved;
  }

  lemma BookedIsSaved(own: set<Id>, states: seq<Mesh>, acts: seq<Act>, i: nat) returns (e: Entry)
    requires CausalUpTo(own, states, acts, i + 1) && acts[i].Book?
    ensures var at := acts[i].at;
            && at in states[i + 1].s && states[i + 1].s[at].Store? && e in states[i + 1].s[at].r.saved
            && e.data == acts[i].data
  {
    LatestAct(own, states, acts, i);
    CausalLifeStaysInStep(own, states, acts, i);
    var h :| InStep(own, states[i], h);
    e := OwnBookingIsSaved(own, states[i], acts[i].at, acts[i].data, states[i + 1], h);
  }

  lemma OwnBookingIsSaved(own: set<Id>, m: Mesh, at: Id, data: Data, next: Mesh, h: Issued) returns (e: Entry)
    requires InStep(own, m, h) && Possible(m, Book(at, data)) && next == After(own, m, Book(at, data))
    ensures at in next.s && next.s[at].Store? && e in next.s[at].r.saved && e.data == data
  {
    e := StampAt(m.s, at, data);
    assert at in Tree(m.g.far, at);
    BookingMoves(own, m.g.w, m.g.far, m.s, h, at, data, at);
  }
}
