/** Floods through forests of hubs and journals: who takes an entry, and how. */
module Hubs {
  import opened Clocks
  import opened Entries
  import opened Flooding
  import opened Forests
  import opened Refreshes
  import opened Runs
  import opened Agreement

  /** A broker without a store, or a journal. */
  datatype Node = Hub(clock: Clock) | Store(r: Replica)

  type Nodes = map<Id, Node>

  function ClockOf(b: Node): Clock { if b.Hub? then b.clock else b.r.clock }

  predicate Opens(b: Node, e: Entry) { b.Hub? || Admits(b.r, e) }

  function Passed(b: Node, e: Entry): Node {
    match b
    case Hub(c) => Hub(Merge(c, e.clock))
    case Store(r) => Store(Take(r, e))
  }

  /** Broker::insert at `n` for an entry from port `source`, behind the admission test where `n` is a journal. */
  ghost function InsertInForest(w: Wiring, far: Sides, s: Nodes, n: Id, source: nat, e: Entry): (r: Nodes)
    requires Forest(w, far) && w.Keys == s.Keys && n in w
    ensures r.Keys == s.Keys
    decreases Behind(far, n, source), |w[n]| + 1
  {
    if Opens(s[n], e) then ForwardInForest(w, far, s[n := Passed(s[n], e)], n, source, e, 0) else s
  }

  /** The forwarding loop, from port `i` on. */
  ghost function ForwardInForest(w: Wiring, far: Sides, s: Nodes, n: Id, source: nat, e: Entry, i: nat): (r: Nodes)
    requires Forest(w, far) && w.Keys == s.Keys && n in w && i <= |w[n]|
    ensures r.Keys == s.Keys
    decreases Behind(far, n, source), |w[n]| - i
  {
    if i == |w[n]| then s
    else if i == source || w[n][i].NoLink? then ForwardInForest(w, far, s, n, source, e, i + 1)
    else
      LinkFacts(w, far, n, i);
      BehindNarrows(w, far, n, source, i);
      ForwardInForest(w, far, InsertInForest(w, far, s, w[n][i].peer, w[n][i].far, e), n, source, e, i + 1)
  }

  /** Every broker on the way from `n` to `x`, both ends included, lets the entry pass. */
  ghost predicate AllOpen(w: Wiring, far: Sides, s: Nodes, e: Entry, n: Id, x: Id)
    requires Forest(w, far) && w.Keys == s.Keys && n in w && x in Tree(far, n)
    decreases Hops(w, far, n, x)
  {
    Opens(s[n], e) && (x == n || OpenBeyond(w, far, s, e, n, x))
  }

  ghost predicate OpenBeyond(w: Wiring, far: Sides, s: Nodes, e: Entry, n: Id, x: Id)
    requires Forest(w, far) && w.Keys == s.Keys && n in w && x in Tree(far, n) && x != n
    decreases Hops(w, far, n, x), 0
  {
    PortToIsUnique(w, far, n, x, PortTo(far, n, x));
    NeighbourHops(w, far, n, PortTo(far, n, x), x);
    AllOpen(w, far, s, e, w[n][PortTo(far, n, x)].peer, x)
  }

  /** What lies beyond a port decides whether the way there is open. */
  lemma {:induction false} OpenFrame(w: Wiring, far: Sides, s: Nodes, t: Nodes, e: Entry, n: Id, i: nat, x: Id)
    requires Forest(w, far) && w.Keys == s.Keys == t.Keys && Port(w, n, i) && i < |far[n]| && x in far[n][i]
    requires forall y | y in far[n][i] && y in s && y in t :: s[y] == t[y]
    ensures w[n][i].peer in w && x in Tree(far, w[n][i].peer)
    ensures AllOpen(w, far, s, e, w[n][i].peer, x) == AllOpen(w, far, t, e, w[n][i].peer, x)
    decreases far[n][i]
  {
    LinkFacts(w, far, n, i);
    NeighbourHops(w, far, n, i, x);
    var m := w[n][i].peer;
    if x != m {
      Ahead(w, far, n, i, x);
      OpenFrame(w, far, s, t, e, m, PortTo(far, m, x), x);
    }
  }

  /** The state `r` after the loop from port `i` on, for broker `x`. */
  ghost predicate PassedRight(w: Wiring, far: Sides, s: Nodes, r: Nodes, e: Entry, n: Id, ahead: set<Id>, x: Id)
    requires Forest(w, far) && w.Keys == s.Keys == r.Keys && n in w && x in w && n !in ahead && ahead <= Tree(far, n)
  {
    r[x] == if x in ahead && OpenBeyond(w, far, s, e, n, x) then Passed(s[x], e) else s[x]
  }

  /** Flooding theorem on forests: the flood ends, and exactly the brokers to which every broker on the way,
      ends included, lets the entry pass have taken it, once; a hub merges the stamp, a journal saves too. */
  lemma {:induction false} InsertTakesOpen(w: Wiring, far: Sides, s: Nodes, n: Id, source: nat, e: Entry, x: Id)
    requires Forest(w, far) && w.Keys == s.Keys && n in w && x in w && source < |w[n]|
    ensures x in Behind(far, n, source) ==> x in Tree(far, n)
    ensures InsertInForest(w, far, s, n, source, e)[x] ==
            if x in Behind(far, n, source) && AllOpen(w, far, s, e, n, x) then Passed(s[x], e) else s[x]
    decreases Behind(far, n, source), |w[n]| + 1
  {
    TreeSplits(w, far, n, source);
    if Opens(s[n], e) {
      var t := s[n := Passed(s[n], e)];
      RestIsBehind(w, far, n, source);
      RestOfAll(w, far, n, source);
      LoopTakesOpen(w, far, t, n, source, e, 0, x);
      if x in Behind(far, n, source) && x != n {
        SameBeyond(w, far, s, t, e, n, x);
      }
    }
  }

  lemma RestOfAll(w: Wiring, far: Sides, n: Id, source: nat)
    requires Forest(w, far) && n in w
    ensures Rest(far, n, source, 0) == Rest(far, n, source, 1)
  {
    assert NodeOk(w, far, n) && w[n][0].NoLink?;
  }

  /** Whether the way beyond `n` is open does not depend on `n`. */
  lemma SameBeyond(w: Wiring, far: Sides, s: Nodes, t: Nodes, e: Entry, n: Id, x: Id)
    requires Forest(w, far) && w.Keys == s.Keys == t.Keys && n in w && x in Tree(far, n) && x != n
    requires forall y | y in w && y != n :: s[y] == t[y]
    ensures OpenBeyond(w, far, s, e, n, x) == OpenBeyond(w, far, t, e, n, x)
  {
    var i := PortTo(far, n, x);
    PortToIsUnique(w, far, n, x, i);
    assert NodeOk(w, far, n);
    OpenFrame(w, far, s, t, e, n, i, x);
  }

  lemma {:induction false} LoopTakesOpen(w: Wiring, far: Sides, s: Nodes, n: Id, source: nat, e: Entry, i: nat, x: Id)
    requires Forest(w, far) && w.Keys == s.Keys && n in w && x in w && i <= |w[n]|
    ensures n !in Rest(far, n, source, i) && Rest(far, n, source, i) <= Tree(far, n)
    ensures PassedRight(w, far, s, ForwardInForest(w, far, s, n, source, e, i), e, n, Rest(far, n, source, i), x)
    decreases Behind(far, n, source), |w[n]| - i
  {
    assert NodeOk(w, far, n);
    RestInTree(w, far, n, source, i);
    if i < |w[n]| {
      RestStep(w, far, n, source, i);
      if i == source || w[n][i].NoLink? {
        LoopTakesOpen(w, far, s, n, source, e, i + 1, x);
      } else {
        LinkFacts(w, far, n, i);
        BehindNarrows(w, far, n, source, i);
        var Link(m, k) := w[n][i];
        var t := InsertInForest(w, far, s, m, k, e);
        InsertTakesOpen(w, far, s, m, k, e, x);
        LoopTakesOpen(w, far, t, n, source, e, i + 1, x);
        if x in far[n][i] {
          PortToIsUnique(w, far, n, x, i);
        } else if x in Rest(far, n, source, i + 1) {
          forall y | y in w && y !in far[n][i] ensures t[y] == s[y] {
            InsertTakesOpen(w, far, s, m, k, e, y);
          }
          OtherSideKeeps(w, far, s, t, n, i, e, x);
        }
      }
    }
  }

  lemma RestInTree(w: Wiring, far: Sides, n: Id, source: nat, i: nat)
    requires Forest(w, far) && n in w
    ensures n !in Rest(far, n, source, i) && Rest(far, n, source, i) <= Tree(far, n)
  {
    assert NodeOk(w, far, n);
    assert w[n][0].NoLink? && far[n][0] == {};
  }

  /** A change beyond one port leaves the ways beyond the others as they were. */
  lemma OtherSideKeeps(w: Wiring, far: Sides, s: Nodes, t: Nodes, n: Id, i: nat, e: Entry, x: Id)
    requires Forest(w, far) && w.Keys == s.Keys == t.Keys && Port(w, n, i) && i < |far[n]|
    requires x in Tree(far, n) && x != n && x !in far[n][i]
    requires forall y | y in w && y !in far[n][i] :: t[y] == s[y]
    ensures OpenBeyond(w, far, t, e, n, x) == OpenBeyond(w, far, s, e, n, x)
  {
    var j := PortTo(far, n, x);
    PortToIsUnique(w, far, n, x, j);
    assert NodeOk(w, far, n);
    assert i < j ==> far[n][i] !! far[n][j];
    OpenFrame(w, far, t, s, e, n, j, x);
  }

  /** What taking leaves, written out: every broker the entry gets to counts its stamp, a journal saves it last,
      and a hub lets whatever comes pass. */
  lemma TakersCountAndSave(w: Wiring, far: Sides, s: Nodes, n: Id, source: nat, e: Entry, x: Id)
    requires Forest(w, far) && w.Keys == s.Keys && n in w && x in w && source < |w[n]|
    ensures s[n].Hub? ==> InsertInForest(w, far, s, n, source, e)[n] == Hub(Merge(s[n].clock, e.clock))
    ensures x in Behind(far, n, source) ==> x in Tree(far, n)
    ensures var r := InsertInForest(w, far, s, n, source, e);
            if x in Behind(far, n, source) && AllOpen(w, far, s, e, n, x) then
              && ClockOf(r[x]) == Merge(ClockOf(s[x]), e.clock)
              && (r[x].Hub? <==> s[x].Hub?)
              && (s[x].Store? ==> r[x].r.saved == s[x].r.saved + [e] && r[x].r.plugin == s[x].r.plugin)
            else r[x] == s[x]
  {
    assert n in Behind(far, n, source);
    InsertTakesOpen(w, far, s, n, source, e, n);
    InsertTakesOpen(w, far, s, n, source, e, x);
  }

  // A forest of journals only

  ghost function Lift(s: World): Nodes { map n | n in s :: Store(s[n]) }

  /** Without hubs this is the flood of an arbitrary graph. */
  lemma {:induction false} JournalsOnlyInsert(w: Wiring, far: Sides, s: World, n: Id, source: nat, e: Entry)
    requires Forest(w, far) && w.Keys == s.Keys && n in w
    ensures InsertInForest(w, far, Lift(s), n, source, e) == Lift(Insert(w, s, n, source, e))
    decreases Behind(far, n, source), |w[n]| + 1
  {
    if Admits(s[n], e) {
      TakeOnce(s, n, e);
      var t := s[n := Take(s[n], e)];
      assert Lift(s)[n := Passed(Lift(s)[n], e)] == Lift(t);
      JournalsOnlyForward(w, far, t, n, source, e, 0);
    }
  }

  lemma {:induction false} JournalsOnlyForward(w: Wiring, far: Sides, s: World, n: Id, source: nat, e: Entry, i: nat)
    requires Forest(w, far) && w.Keys == s.Keys && n in w && i <= |w[n]|
    ensures ForwardInForest(w, far, Lift(s), n, source, e, i) == Lift(Forward(w, s, n, source, e, i))
    decreases Behind(far, n, source), |w[n]| - i
  {
    if i < |w[n]| {
      if i == source || w[n][i].NoLink? {
        JournalsOnlyForward(w, far, s, n, source, e, i + 1);
      } else {
        LinkFacts(w, far, n, i);
        BehindNarrows(w, far, n, source, i);
        JournalsOnlyInsert(w, far, s, w[n][i].peer, w[n][i].far, e);
        JournalsOnlyForward(w, far, Insert(w, s, w[n][i].peer, w[n][i].far, e), n, source, e, i + 1);
      }
    }
  }

  /** The entry that broker `a` makes of `data`: the stamp is its own clock, ticked. */
  function StampAt(s: Nodes, a: Id, data: Data): Entry
    requires a in s
  {
    Entry(Tick(ClockOf(s[a]), data.id), data)
  }

  /** BrokerBase::append at broker `a`. */
  ghost function AppendAt(w: Wiring, far: Sides, s: Nodes, a: Id, data: Data): (r: Nodes)
    requires Forest(w, far) && w.Keys == s.Keys && a in w
    ensures r.Keys == s.Keys
  {
    InsertInForest(w, far, s, a, 0, StampAt(s, a, data))
  }

  lemma JournalsOnlyAppend(w: Wiring, far: Sides, s: World, a: Id, data: Data)
    requires Forest(w, far) && w.Keys == s.Keys && a in w
    ensures AppendAt(w, far, Lift(s), a, data) == Lift(LocalAppend(w, s, a, data))
  {
    JournalsOnlyInsert(w, far, s, a, 0, Stamped(s[a], data));
  }
}
