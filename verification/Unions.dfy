/** Linking two trees of hubs and journals: what the exchange leaves in every journal of both. */
module Unions {
  import opened Clocks
  import opened Entries
  import opened Flooding
  import opened Runs
  import opened Convergence
  import opened Listings
  import opened Forests
  import opened Tables
  import opened Refreshes
  import opened Joins
  import opened Connects
  import opened Hubs
  import opened Meetings
  import opened Meshes
  import opened Batches
  import opened Chains
  import opened Handshakes
  import opened Exchanges
  import opened Answers
  import Deltas
  import Ledgers

  // One side takes a batch

  lemma {:induction false} OpenWithin(w: Wiring, far: Sides, s: Nodes, e: Entry, n: Id, source: nat, x: Id)
    requires Forest(w, far) && w.Keys == s.Keys && n in w && x in Behind(far, n, source)
    requires forall y | y in Behind(far, n, source) && y in w :: Opens(s[y], e)
    ensures x in Tree(far, n) && AllOpen(w, far, s, e, n, x)
    decreases Behind(far, n, source)
  {
    assert n in Behind(far, n, source);
    if x != n {
      var i: nat :| i < |far[n]| && i != source && x in far[n][i];
      PortToIsUnique(w, far, n, x, i);
      LinkFacts(w, far, n, i);
      BehindNarrows(w, far, n, source, i);
      NeighbourHops(w, far, n, i, x);
      OpenWithin(w, far, s, e, w[n][i].peer, w[n][i].far, x);
    }
  }

  lemma {:induction false} EndIsOpen(w: Wiring, far: Sides, s: Nodes, e: Entry, n: Id, x: Id)
    requires Forest(w, far) && w.Keys == s.Keys && n in w && x in Tree(far, n) && AllOpen(w, far, s, e, n, x)
    ensures x in w && Opens(s[x], e)
    decreases Hops(w, far, n, x)
  {
    if x != n {
      var i := PortTo(far, n, x);
      PortToIsUnique(w, far, n, x, i);
      NeighbourHops(w, far, n, i, x);
      EndIsOpen(w, far, s, e, w[n][i].peer, x);
    }
  }

  /** The journals of a side count the same; what hubs count plays no part. */
  ghost predicate JournalsAgree(s: Nodes, side: set<Id>) {
    && (forall x | x in side && x in s && s[x].Store? :: ClockIsJoin(s[x].r))
    && (forall x, y | x in side && y in side && x in s && y in s && s[x].Store? && s[y].Store? :: s[x].r.clock == s[y].r.clock)
  }

  lemma EntryReachesJournals(w: Wiring, far: Sides, s: Nodes, n: Id, source: nat, e: Entry, x: Id)
    requires Forest(w, far) && w.Keys == s.Keys && n in w && source < |w[n]| && JournalsAgree(s, Behind(far, n, source))
    requires x in w && s[x].Store?
    ensures InsertInForest(w, far, s, n, source, e)[x] ==
            Store(if x in Behind(far, n, source) then Admit(s[x].r, e) else s[x].r)
  {
    InsertTakesOpen(w, far, s, n, source, e, x);
    if x in Behind(far, n, source) {
      if Admits(s[x].r, e) {
        forall y | y in Behind(far, n, source) && y in w ensures Opens(s[y], e) {
          if s[y].Store? {
            DuplicateBranchUnreachable(s[y].r, e);
          }
        }
        OpenWithin(w, far, s, e, n, source, x);
      } else if AllOpen(w, far, s, e, n, x) {
        EndIsOpen(w, far, s, e, n, x);
      }
    }
  }

  lemma AgreementIsKept(s: Nodes, t: Nodes, side: set<Id>, e: Entry)
    requires JournalsAgree(s, side) && s.Keys == t.Keys && forall x | x in s :: t[x].Store? == s[x].Store?
    requires forall x | x in side && x in s && s[x].Store? :: t[x] == Store(Admit(s[x].r, e))
    ensures JournalsAgree(t, side)
  {
    forall x | x in side && x in t && t[x].Store? ensures ClockIsJoin(t[x].r) {
      JoinAfterAdmit(s[x].r, e);
    }
    forall x, y | x in side && y in side && x in t && y in t && t[x].Store? && t[y].Store?
      ensures t[x].r.clock == t[y].r.clock
    {
      JoinAfterAdmit(s[x].r, e);
      JoinAfterAdmit(s[y].r, e);
    }
  }

  lemma JoinAfterAdmit(r: Replica, e: Entry)
    requires ClockIsJoin(r)
    ensures ClockIsJoin(Admit(r, e))
    ensures Admit(r, e).clock == if IsNext(e.clock, r.clock, e.data.id) then Merge(r.clock, e.clock) else r.clock
  {
    if IsNext(e.clock, r.clock, e.data.id) {
      DuplicateBranchUnreachable(r, e);
      TakeKeepsJoin(r, e);
    }
  }

  lemma KindsStay(w: Wiring, far: Sides, s: Nodes, n: Id, source: nat, e: Entry)
    requires Forest(w, far) && w.Keys == s.Keys && n in w && source < |w[n]|
    ensures forall x | x in s :: InsertInForest(w, far, s, n, source, e)[x].Store? == s[x].Store?
  {
    forall x | x in s ensures InsertInForest(w, far, s, n, source, e)[x].Store? == s[x].Store? {
      InsertTakesOpen(w, far, s, n, source, e, x);
    }
  }

  /** Every journal of the side takes the batch as if it were alone, whatever hubs stand between. */
  lemma {:induction false} BatchReachesJournals(w: Wiring, far: Sides, s: Nodes, n: Id, source: nat, list: seq<Entry>, x: Id)
    requires Forest(w, far) && w.Keys == s.Keys && n in w && source < |w[n]| && JournalsAgree(s, Behind(far, n, source))
    requires x in w && s[x].Store?
    ensures BatchInForest(w, far, s, n, source, list)[x] ==
            Store(if x in Behind(far, n, source) then AdmitAll(s[x].r, list) else s[x].r)
    decreases list
  {
    if list != [] {
      var t := InsertInForest(w, far, s, n, source, list[0]);
      KindsStay(w, far, s, n, source, list[0]);
      forall y | y in w && s[y].Store?
        ensures t[y] == Store(if y in Behind(far, n, source) then Admit(s[y].r, list[0]) else s[y].r)
      {
        EntryReachesJournals(w, far, s, n, source, list[0], y);
      }
      AgreementIsKept(s, t, Behind(far, n, source), list[0]);
      BatchReachesJournals(w, far, t, n, source, list[1..], x);
    }
  }

  // Both sides exchange

  /** What the journals of the network hold. */
  ghost function Journals(s: Nodes): World { map x | x in s && s[x].Store? :: s[x].r }

  /** The journals of each tree are without gaps and count the same, and so do its hubs; a tree without journals counts
      nothing. */
  ghost predicate Synced(own: set<Id>, w: Wiring, far: Sides, s: Nodes, h: Issued)
    requires Forest(w, far) && w.Keys == s.Keys
  {
    && Inv(Sys(Journals(s), h)) && WorldGapFree(h, Journals(s))
    && TreesCountAlike(far, s) && BareTreesAreBlank(own, far, s)
  }

  ghost predicate TreesCountAlike(far: Sides, s: Nodes)
    requires far.Keys == s.Keys
  {
    forall n, x | n in s && x in Tree(far, n) && x in s :: ClockOf(s[n]) == ClockOf(s[x])
  }

  ghost predicate BareTreesAreBlank(own: set<Id>, far: Sides, s: Nodes)
    requires far.Keys == s.Keys
  {
    forall n | n in s && !HasJournal(own, Tree(far, n)) :: ClockOf(s[n]) == map[]
  }

  lemma SyncedAgrees(own: set<Id>, w: Wiring, far: Sides, s: Nodes, h: Issued, n: Id)
    requires Forest(w, far) && w.Keys == s.Keys && Synced(own, w, far, s, h) && n in w
    ensures JournalsAgree(s, Tree(far, n))
  {
    assert n in Tree(far, n);
    forall x, y | x in Tree(far, n) && y in Tree(far, n) && x in s && y in s && s[x].Store? && s[y].Store?
      ensures s[x].r.clock == s[y].r.clock
    {
      assert ClockOf(s[n]) == ClockOf(s[x]) && ClockOf(s[n]) == ClockOf(s[y]);
    }
    forall x | x in s && s[x].Store? ensures ClockIsJoin(s[x].r) {
      assert ReplicaOk(h, Journals(s)[x]);
    }
  }

  /** Both batches in turn: each side takes the one it is sent. */
  lemma ExchangeReachesJournals(w: Wiring, far: Sides, s: Nodes, a: Id, p: nat, b: Id, q: nat, left: set<Id>, right: set<Id>,
                                fromB: seq<Entry>, fromA: seq<Entry>, x: Id)
    requires Forest(w, far) && w.Keys == s.Keys && a in w && b in w && p < |w[a]| && q < |w[b]|
    requires Behind(far, a, p) == left && Behind(far, b, q) == right && left !! right
    requires JournalsAgree(s, left) && JournalsAgree(s, right) && x in w && s[x].Store?
    ensures BatchInForest(w, far, BatchInForest(w, far, s, a, p, fromB), b, q, fromA)[x] ==
            Store(if x in left then AdmitAll(s[x].r, fromB) else if x in right then AdmitAll(s[x].r, fromA) else s[x].r)
  {
    var t := BatchInForest(w, far, s, a, p, fromB);
    BatchKindsStay(w, far, s, a, p, fromB);
    forall y | y in w && s[y].Store? ensures t[y] == Store(if y in left then AdmitAll(s[y].r, fromB) else s[y].r) {
      BatchReachesJournals(w, far, s, a, p, fromB, y);
    }
    assert JournalsAgree(t, right);
    BatchReachesJournals(w, far, t, b, q, fromA, x);
  }

  lemma {:induction false} BatchKindsStay(w: Wiring, far: Sides, s: Nodes, n: Id, source: nat, list: seq<Entry>)
    requires Forest(w, far) && w.Keys == s.Keys && n in w && source < |w[n]|
    ensures forall x | x in s :: BatchInForest(w, far, s, n, source, list)[x].Store? == s[x].Store?
    decreases list
  {
    if list != [] {
      KindsStay(w, far, s, n, source, list[0]);
      BatchKindsStay(w, far, InsertInForest(w, far, s, n, source, list[0]), n, source, list[1..]);
    }
  }

  /** After a connect every journal of the asker's tree has taken what the asker was sent, every journal of the other
      tree what the asker sent, and no other journal has changed. */
  lemma ConnectReachesJournals(own: set<Id>, m: Mesh, h: Issued, a: Id, b: Id, x: Id)
    requires Upright(own, m) && Linkable(m.g.w, m.g.far, m.g.t, a, b) && Synced(own, m.g.w, m.g.far, m.s, h)
    requires x in m.s && m.s[x].Store?
    ensures x in Connected(own, m, a, b).s
    ensures Connected(own, m, a, b).s[x] ==
            Store(if x in Tree(m.g.far, a) then AdmitAll(m.s[x].r, SentToAsker(own, m, a, b))
                  else if x in Tree(m.g.far, b) then AdmitAll(m.s[x].r, SentByAsker(own, m, a, b))
                  else m.s[x].r)
  {
    var Routes(w, far, t) := m.g;
    ConnectedIs(own, m, a, b);
    NewPort(w, far, a, b);
    NewSideOk(w, far, a, b);
    EndsDiffer(w, far, a, b);
    SyncedAgrees(own, w, far, m.s, h, a);
    SyncedAgrees(own, w, far, m.s, h, b);
    ExchangeReachesJournals(Join(w, a, b), JoinFar(far, a, b), m.s, a, |w[a]|, b, |w[b]|, Tree(far, a), Tree(far, b),
                            SentToAsker(own, m, a, b), SentByAsker(own, m, a, b), x);
  }

  // What each side ends with

  lemma SameClockSameEntries(h: Issued, r: Replica, q: Replica)
    requires ReplicaOk(h, r) && ReplicaOk(h, q) && GapFree(h, r) && GapFree(h, q) && WellStamped(h) && r.clock == q.clock
    ensures forall e :: e in r.saved <==> e in q.saved
  {
    forall e | e in r.saved ensures e in q.saved {
      SavedIsCounted(h, r, e);
      Deltas.GapFreeHolds(h, q, e);
    }
    forall e | e in q.saved ensures e in r.saved {
      SavedIsCounted(h, q, e);
      Deltas.GapFreeHolds(h, r, e);
    }
  }

  lemma SavedIsCounted(h: Issued, r: Replica, e: Entry)
    requires ReplicaOk(h, r) && e in r.saved
    ensures IsIssued(h, e) && Leq(e.clock, r.clock) && Seq(e) <= At(r.clock, e.data.id)
  {
    assert IsIssued(h, e) && Leq(e.clock, r.clock);
    assert e.data.id in e.clock;
  }

  /** One side: journal `x` takes what journal `z` answered for `x`'s clock, and `y` is any journal in step with `z`. */
  lemma SideUnites(h: Issued, s: Nodes, x: Id, y: Id, z: Id, batch: seq<Entry>)
    requires Inv(Sys(Journals(s), h)) && WorldGapFree(h, Journals(s))
    requires x in s && y in s && z in s && s[x].Store? && s[y].Store? && s[z].Store?
    requires s[y].r.clock == s[z].r.clock && batch == Deltas.Query(Listing(s[z].r), s[x].r.clock)
    ensures var r := AdmitAll(s[x].r, batch);
            && (HoldsUnion(r, s[x].r, s[y].r) <==> Ledgers.CausalOrder(batch))
            && (r.clock == Merge(s[x].r.clock, s[y].r.clock) <==> CarriesAll(s[x].r.clock, batch, s[y].r.clock))
            && (Increasing(batch) ==> r.clock == Merge(s[x].r.clock, s[y].r.clock))
  {
    var sys := Sys(Journals(s), h);
    assert ReplicaOk(h, sys.world[x]) && ReplicaOk(h, sys.world[y]) && ReplicaOk(h, sys.world[z]);
    assert GapFree(h, sys.world[x]) && GapFree(h, sys.world[y]) && GapFree(h, sys.world[z]);
    AnswersAreBatches(sys, z, s[x].r.clock);
    BatchAtOneSide(sys, x, z, batch);
    SameClockSameEntries(h, s[y].r, s[z].r);
  }

  /** One end: what `x` in one tree makes of the batch answered in the other, `y` being any journal there. */
  lemma OneEndUnites(own: set<Id>, w: Wiring, far: Sides, s: Nodes, h: Issued, a: Id, b: Id, x: Id, y: Id, batch: seq<Entry>)
    requires Forest(w, far) && w.Keys == s.Keys && Synced(own, w, far, s, h) && a in w && b in w
    requires x in s && s[x].Store? && x in Tree(far, a) && y in s && s[y].Store? && y in Tree(far, b)
    requires exists z :: z in Tree(far, b) && IsDeltaOf(s, z, ClockOf(s[a]), batch)
    ensures var r := AdmitAll(s[x].r, batch);
            && (HoldsUnion(r, s[x].r, s[y].r) <==> Ledgers.CausalOrder(batch))
            && (r.clock == Merge(s[x].r.clock, s[y].r.clock) <==> CarriesAll(s[x].r.clock, batch, s[y].r.clock))
            && (Increasing(batch) ==> r.clock == Merge(s[x].r.clock, s[y].r.clock))
  {
    var z :| z in Tree(far, b) && IsDeltaOf(s, z, ClockOf(s[a]), batch);
    assert ClockOf(s[a]) == ClockOf(s[x]) && ClockOf(s[b]) == ClockOf(s[y]) && ClockOf(s[b]) == ClockOf(s[z]);
    SideUnites(h, s, x, y, z, batch);
  }

  /** Connecting two trees in step: each journal of the asker's tree ends with everything both trees stored if and only
      if what the asker was sent is in causal order, and counts what both counted if and only if chains carry it; likewise
      on the other side. */
  lemma ConnectedTreesUnite(own: set<Id>, m: Mesh, h: Issued, a: Id, b: Id, x: Id, y: Id)
    requires Upright(own, m) && Linkable(m.g.w, m.g.far, m.g.t, a, b) && Synced(own, m.g.w, m.g.far, m.s, h)
    requires x in m.s && m.s[x].Store? && x in Tree(m.g.far, a)
    requires y in m.s && m.s[y].Store? && y in Tree(m.g.far, b)
    ensures var r, fromB, fromA := Connected(own, m, a, b).s, SentToAsker(own, m, a, b), SentByAsker(own, m, a, b);
            var rx, ry := m.s[x].r, m.s[y].r;
            && x in r && y in r && r[x].Store? && r[y].Store?
            && (HoldsUnion(r[x].r, rx, ry) <==> Ledgers.CausalOrder(fromB))
            && (HoldsUnion(r[y].r, ry, rx) <==> Ledgers.CausalOrder(fromA))
            && (r[x].r.clock == Merge(rx.clock, ry.clock) <==> CarriesAll(rx.clock, fromB, ry.clock))
            && (r[y].r.clock == Merge(ry.clock, rx.clock) <==> CarriesAll(ry.clock, fromA, rx.clock))
  {
    var Routes(w, far, t) := m.g;
    assert x in own && y in own;
    EndsDiffer(w, far, a, b);
    ConnectReachesJournals(own, m, h, a, b, x);
    ConnectReachesJournals(own, m, h, a, b, y);
    ExchangedDeltas(own, m, a, b);
    OneEndUnites(own, w, far, m.s, h, a, b, x, y, SentToAsker(own, m, a, b));
    OneEndUnites(own, w, far, m.s, h, b, a, y, x, SentByAsker(own, m, a, b));
  }
}
