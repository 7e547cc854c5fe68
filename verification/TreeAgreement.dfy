/** Bookings in a forest of hubs and journals: the journals of a tree stay in agreement. */
module TreeAgreement {
  import opened Clocks
  import opened Entries
  import opened Flooding
  import opened Forests
  import opened Runs
  import opened Agreement
  import opened Hubs

  /** Journals of one tree have the same clock and saved the same entries in the same order. */
  ghost predicate TreesAgree(w: Wiring, far: Sides, s: Nodes)
    requires Forest(w, far) && w.Keys == s.Keys
  {
    && (forall n, x | n in w && x in w && s[n].Store? && s[x].Store? && x in Tree(far, n) ::
          s[n].r.clock == s[x].r.clock && s[n].r.saved == s[x].r.saved)
    && (forall n | n in s && s[n].Store? :: ClockIsJoin(s[n].r))
  }

  lemma {:induction false} AllOpenWhenEachIs(w: Wiring, far: Sides, s: Nodes, e: Entry, n: Id, x: Id)
    requires Forest(w, far) && w.Keys == s.Keys && n in w && x in Tree(far, n)
    requires forall y | y in Tree(far, n) && y in w :: Opens(s[y], e)
    ensures AllOpen(w, far, s, e, n, x)
    decreases Hops(w, far, n, x)
  {
    assert n in Tree(far, n);
    if x != n {
      var i := PortTo(far, n, x);
      PortToIsUnique(w, far, n, x, i);
      NeighbourHops(w, far, n, i, x);
      NeighboursShareTree(w, far, n, i);
      AllOpenWhenEachIs(w, far, s, e, w[n][i].peer, x);
    }
  }

  /** A booking is let through by every broker of the tree, and so taken by each, once. */
  lemma BookingReachesTree(w: Wiring, far: Sides, s: Nodes, a: Id, data: Data, x: Id)
    requires Forest(w, far) && w.Keys == s.Keys && TreesAgree(w, far, s) && a in w && s[a].Store? && x in w
    ensures AppendAt(w, far, s, a, data)[x] ==
            if x in Tree(far, a) then Passed(s[x], Stamped(s[a].r, data)) else s[x]
  {
    var e := Stamped(s[a].r, data);
    forall y | y in Tree(far, a) && y in w ensures Opens(s[y], e) {
      if s[y].Store? {
        assert s[y].r.clock == s[a].r.clock;
        AppendIsAdmitted(s[y].r, data);
      }
    }
    InsertTakesOpen(w, far, s, a, 0, e, x);
    if x in Tree(far, a) {
      AllOpenWhenEachIs(w, far, s, e, a, x);
    }
  }

  lemma SameTree(w: Wiring, far: Sides, a: Id, n: Id, x: Id)
    requires Forest(w, far) && a in w && n in w && x in w && x in Tree(far, n)
    ensures x in Tree(far, a) <==> n in Tree(far, a)
    ensures n in Tree(far, x)
  {
    TreesPartition(w, far, n, x);
    assert n in Tree(far, n) && x in Tree(far, x);
    if x in Tree(far, a) {
      TreesPartition(w, far, a, x);
    }
    if n in Tree(far, a) {
      TreesPartition(w, far, a, n);
    }
  }

  lemma InEachOther(w: Wiring, far: Sides, n: Id, a: Id)
    requires Forest(w, far) && n in w && a in w
    ensures a in Tree(far, n) <==> n in Tree(far, a)
  {
    assert n in Tree(far, n) && a in Tree(far, a);
    if a in Tree(far, n) {
      TreesPartition(w, far, n, a);
    }
    if n in Tree(far, a) {
      TreesPartition(w, far, a, n);
    }
  }

  lemma BookingKeepsAgreement(w: Wiring, far: Sides, s: Nodes, a: Id, data: Data)
    requires Forest(w, far) && w.Keys == s.Keys && TreesAgree(w, far, s) && a in w && s[a].Store?
    ensures TreesAgree(w, far, AppendAt(w, far, s, a, data))
  {
    var r, e := AppendAt(w, far, s, a, data), Stamped(s[a].r, data);
    forall n | n in w ensures r[n] == if n in Tree(far, a) then Passed(s[n], e) else s[n] {
      BookingReachesTree(w, far, s, a, data, n);
    }
    forall n, x | n in w && x in w && r[n].Store? && r[x].Store? && x in Tree(far, n)
      ensures r[n].r.clock == r[x].r.clock && r[n].r.saved == r[x].r.saved
    {
      SameTree(w, far, a, n, x);
    }
    forall n | n in r && r[n].Store? ensures ClockIsJoin(r[n].r) {
      TakeKeepsJoin(s[n].r, e);
    }
  }

  /** Each hub counts what the journals of its tree count. */
  ghost predicate HubsKeepUp(w: Wiring, far: Sides, s: Nodes)
    requires Forest(w, far) && w.Keys == s.Keys
  {
    forall h, n | h in w && n in w && s[h].Hub? && s[n].Store? && h in Tree(far, n) :: s[h].clock == s[n].r.clock
  }

  lemma BookingKeepsHubs(w: Wiring, far: Sides, s: Nodes, a: Id, data: Data)
    requires Forest(w, far) && w.Keys == s.Keys && TreesAgree(w, far, s) && a in w && s[a].Store? && HubsKeepUp(w, far, s)
    ensures HubsKeepUp(w, far, AppendAt(w, far, s, a, data))
  {
    var r, e := AppendAt(w, far, s, a, data), Stamped(s[a].r, data);
    forall n | n in w ensures r[n] == if n in Tree(far, a) then Passed(s[n], e) else s[n] {
      BookingReachesTree(w, far, s, a, data, n);
    }
    forall h, n | h in w && n in w && r[h].Hub? && r[n].Store? && h in Tree(far, n) ensures r[h].clock == r[n].r.clock {
      SameTree(w, far, a, n, h);
    }
  }

  ghost function RunBookings(w: Wiring, far: Sides, s: Nodes, calls: seq<Call>): (r: Nodes)
    requires Forest(w, far) && w.Keys == s.Keys && forall c | c in calls :: c.at in w
    ensures r.Keys == s.Keys
    decreases calls
  {
    if calls == [] then s else RunBookings(w, far, AppendAt(w, far, s, calls[0].at, calls[0].data), calls[1..])
  }

  /** The calls made in a tree. */
  ghost function CallsIn(tree: set<Id>, calls: seq<Call>): seq<Call> {
    if calls == [] then []
    else (if calls[0].at in tree then [calls[0]] else []) + CallsIn(tree, calls[1..])
  }

  lemma {:induction false} BookingsKeepAgreement(w: Wiring, far: Sides, s: Nodes, calls: seq<Call>, n: Id)
    requires Forest(w, far) && w.Keys == s.Keys && TreesAgree(w, far, s) && n in w && s[n].Store?
    requires forall c | c in calls :: c.at in w && s[c.at].Store?
    ensures TreesAgree(w, far, RunBookings(w, far, s, calls)) && RunBookings(w, far, s, calls)[n].Store?
    ensures SavedCalls(s[n].r.saved, RunBookings(w, far, s, calls)[n].r.saved, CallsIn(Tree(far, n), calls))
    ensures HubsKeepUp(w, far, s) ==> HubsKeepUp(w, far, RunBookings(w, far, s, calls))
    decreases calls
  {
    if calls != [] {
      var Call(a, data) := calls[0];
      assert calls[0] in calls;
      var t := AppendAt(w, far, s, a, data);
      BookingKeepsAgreement(w, far, s, a, data);
      forall x | x in w ensures t[x].Store? == s[x].Store? {
        BookingReachesTree(w, far, s, a, data, x);
      }
      BookingReachesTree(w, far, s, a, data, n);
      if HubsKeepUp(w, far, s) {
        BookingKeepsHubs(w, far, s, a, data);
      }
      BookingsKeepAgreement(w, far, t, calls[1..], n);
      InEachOther(w, far, n, a);
      OneMoreBooking(s[n].r.saved, RunBookings(w, far, t, calls[1..])[n].r.saved, Stamped(s[a].r, data), calls[0],
                     CallsIn(Tree(far, n), calls[1..]), a in Tree(far, n));
    }
  }

  lemma OneMoreBooking(before: seq<Entry>, now: seq<Entry>, e: Entry, c: Call, rest: seq<Call>, mine: bool)
    requires e.data == c.data && SavedCalls(if mine then before + [e] else before, now, rest)
    ensures SavedCalls(before, now, (if mine then [c] else []) + rest)
  {
    if mine {
      assert ([c] + rest)[1..] == rest;
      SavedCallsCons(before, e, now, [c] + rest);
    } else {
      assert [] + rest == rest;
    }
  }

  ghost predicate AllEmpty(s: Nodes) {
    forall n | n in s && s[n].Store? :: s[n].r.clock == map[] && s[n].r.saved == []
  }

  /** From empty journals, after any bookings at journals of a forest of hubs and journals, the journals of a
      tree have equal clocks and stores, one entry for each call made in that tree, in call order; and each hub that
      started empty too has the clock of the journals of its tree. */
  lemma ForestAgrees(w: Wiring, far: Sides, s: Nodes, calls: seq<Call>, n: Id)
    requires Forest(w, far) && w.Keys == s.Keys && AllEmpty(s) && n in w && s[n].Store?
    requires forall c | c in calls :: c.at in w && s[c.at].Store?
    ensures TreesAgree(w, far, RunBookings(w, far, s, calls)) && RunBookings(w, far, s, calls)[n].Store?
    ensures SavedCalls([], RunBookings(w, far, s, calls)[n].r.saved, CallsIn(Tree(far, n), calls))
    ensures (forall h | h in s && s[h].Hub? :: s[h].clock == map[]) ==> HubsKeepUp(w, far, RunBookings(w, far, s, calls))
  {
    BookingsKeepAgreement(w, far, s, calls, n);
  }
}
