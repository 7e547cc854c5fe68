/** One insert into a graph of journals, with all its forwarding and re-entry. */
module Flooding {
  import opened Clocks
  import opened Entries

  /** The two journal plugins differ in when saving fails. */
  datatype Plugin = Cache | File

  /** What a journal knows: its clock and the entries it saved, in arrival order. */
  datatype Replica = Replica(plugin: Plugin, clock: Clock, saved: seq<Entry>)

  /** A port leads to the port `far` of `peer`; slot 0 is the journal itself and leads nowhere. */
  datatype Link = NoLink | Link(peer: Id, far: nat)

  type World = map<Id, Replica>
  type Wiring = map<Id, seq<Link>>

  ghost predicate Wired(w: Wiring) {
    && (forall n | n in w :: |w[n]| > 0 && w[n][0].NoLink?)
    && (forall n, i {:trigger LinkOk(w, n, i)} | n in w && 0 <= i < |w[n]| && w[n][i].Link? :: LinkOk(w, n, i))
  }

  ghost predicate LinkOk(w: Wiring, n: Id, i: nat)
    requires n in w && i < |w[n]| && w[n][i].Link?
  {
    var Link(m, j) := w[n][i];
    m in w && 0 < j < |w[m]| && w[m][j] == Link(n, i)
  }

  predicate SaveFails(r: Replica, e: Entry) { r.plugin.Cache? && HasStamp(r.saved, e.clock) }

  predicate Admits(r: Replica, e: Entry) { IsNext(e.clock, r.clock, e.data.id) && !SaveFails(r, e) }

  function Take(r: Replica, e: Entry): Replica {
    r.(clock := Merge(r.clock, e.clock), saved := r.saved + [e])
  }

  /** The journals that would still accept `e`: each acceptance removes one, so flooding ends. */
  ghost function Ready(s: World, e: Entry): set<Id> { set n | n in s && Admits(s[n], e) }

  lemma TakeOnce(s: World, n: Id, e: Entry)
    requires n in s && Admits(s[n], e)
    ensures Ready(s[n := Take(s[n], e)], e) == Ready(s, e) - {n}
  {
    NextIsNew(e.clock, s[n].clock, e.data.id);
  }

  /** JournalBase::insert followed by Broker::insert at journal `n`, entry arriving on port `source`. */
  ghost function Insert(w: Wiring, s: World, n: Id, source: nat, e: Entry): (r: World)
    requires Wired(w) && w.Keys == s.Keys && n in s
    ensures r.Keys == s.Keys && Ready(r, e) <= Ready(s, e)
    ensures n !in Ready(r, e)
    decreases Ready(s, e), 0
  {
    if !Admits(s[n], e) then s
    else
      TakeOnce(s, n, e);
      Forward(w, s[n := Take(s[n], e)], n, source, e, 0)
  }

  /** The forwarding loop, from port `i` on. */
  ghost function Forward(w: Wiring, s: World, n: Id, source: nat, e: Entry, i: nat): (r: World)
    requires Wired(w) && w.Keys == s.Keys && n in s && i <= |w[n]|
    ensures r.Keys == s.Keys && Ready(r, e) <= Ready(s, e)
    decreases Ready(s, e), |w[n]| - i + 1
  {
    if i == |w[n]| then s
    else if i == source || w[n][i].NoLink? then Forward(w, s, n, source, e, i + 1)
    else
      assert LinkOk(w, n, i);
      Forward(w, Insert(w, s, w[n][i].peer, w[n][i].far, e), n, source, e, i + 1)
  }

  // What flooding leaves behind

  /** `r` is `s` with `e` taken once by exactly the journals that stopped being ready. */
  ghost predicate TookOnce(s: World, r: World, e: Entry) {
    && r.Keys == s.Keys
    && Ready(r, e) <= Ready(s, e)
    && forall n | n in s :: r[n] == if n in Ready(s, e) - Ready(r, e) then Take(s[n], e) else s[n]
  }

  /** Every link out of a journal that took `e`, other than `skip` of `n`, leads to a journal that will not take it. */
  ghost predicate Spread(w: Wiring, s: World, r: World, e: Entry, n: Id, skip: nat)
    requires w.Keys == s.Keys == r.Keys
  {
    forall x, j | x in Ready(s, e) - Ready(r, e) && 0 <= j < |w[x]| && w[x][j].Link? && !(x == n && j == skip) ::
      w[x][j].peer !in Ready(r, e)
  }

  /** As `Spread`, with no port skipped. */
  ghost predicate Closed(w: Wiring, s: World, r: World, e: Entry)
    requires w.Keys == s.Keys == r.Keys
  {
    forall x, j | x in Ready(s, e) - Ready(r, e) && 0 <= j < |w[x]| && w[x][j].Link? :: w[x][j].peer !in Ready(r, e)
  }

  /** One neighbour's flood followed by the rest of the loop: the port that led back is no exception any more. */
  lemma SpreadThenClosed(w: Wiring, s: World, t: World, r: World, e: Entry, n: Id, m: Id, k: nat)
    requires w.Keys == s.Keys == t.Keys == r.Keys
    requires Ready(r, e) <= Ready(t, e) <= Ready(s, e)
    requires Spread(w, s, t, e, m, k) && Closed(w, t, r, e)
    requires m in w && k < |w[m]| && w[m][k].Link? && w[m][k].peer == n && n !in Ready(s, e)
    ensures Closed(w, s, r, e)
  {
    forall x, j | x in Ready(s, e) - Ready(r, e) && 0 <= j < |w[x]| && w[x][j].Link?
      ensures w[x][j].peer !in Ready(r, e)
    {
      if x !in Ready(t, e) && !(x == m && j == k) {
        assert w[x][j].peer !in Ready(t, e);
      }
    }
  }

  lemma TookOnceTrans(s: World, t: World, r: World, e: Entry)
    requires TookOnce(s, t, e) && TookOnce(t, r, e)
    ensures TookOnce(s, r, e)
  {}

  lemma {:induction false} InsertTakes(w: Wiring, s: World, n: Id, source: nat, e: Entry)
    requires Wired(w) && w.Keys == s.Keys && n in s
    ensures TookOnce(s, Insert(w, s, n, source, e), e)
    ensures Spread(w, s, Insert(w, s, n, source, e), e, n, source)
    decreases Ready(s, e), 0
  {
    if Admits(s[n], e) {
      TakeOnce(s, n, e);
      var t := s[n := Take(s[n], e)];
      ForwardTakes(w, t, n, source, e, 0);
      TookOnceTrans(s, t, Forward(w, t, n, source, e, 0), e);
    }
  }

  lemma {:induction false} ForwardTakes(w: Wiring, s: World, n: Id, source: nat, e: Entry, i: nat)
    requires Wired(w) && w.Keys == s.Keys && n in s && i <= |w[n]|
    requires n !in Ready(s, e)
    ensures TookOnce(s, Forward(w, s, n, source, e, i), e)
    ensures Closed(w, s, Forward(w, s, n, source, e, i), e)
    ensures forall j | i <= j < |w[n]| && j != source && w[n][j].Link? ::
              w[n][j].peer !in Ready(Forward(w, s, n, source, e, i), e)
    decreases Ready(s, e), |w[n]| - i + 1
  {
    if i < |w[n]| {
      if i == source || w[n][i].NoLink? {
        ForwardTakes(w, s, n, source, e, i + 1);
      } else {
        assert LinkOk(w, n, i);
        var Link(m, k) := w[n][i];
        var t := Insert(w, s, m, k, e);
        InsertTakes(w, s, m, k, e);
        ForwardTakes(w, t, n, source, e, i + 1);
        var r := Forward(w, t, n, source, e, i + 1);
        TookOnceTrans(s, t, r, e);
        SpreadThenClosed(w, s, t, r, e, n, m, k);
        assert r == Forward(w, s, n, source, e, i);
      }
    }
  }

  // Reachability

  ghost predicate Hop(w: Wiring, x: Id, y: Id, n: Id, skip: nat) {
    x in w && exists j :: 0 <= j < |w[x]| && w[x][j].Link? && w[x][j].peer == y && !(x == n && j == skip)
  }

  /** A path from `n` to `x` inside `area` that does not leave `n` by port `skip`. */
  ghost predicate Path(w: Wiring, area: set<Id>, n: Id, skip: nat, path: seq<Id>, x: Id) {
    && |path| > 0 && path[0] == n && path[|path| - 1] == x
    && (forall k | 0 <= k < |path| :: path[k] in area)
    && (forall k | 0 < k < |path| :: Hop(w, path[k - 1], path[k], n, skip))
  }

  ghost predicate Reaches(w: Wiring, area: set<Id>, n: Id, skip: nat, x: Id) {
    exists path :: Path(w, area, n, skip, path, x)
  }

  lemma {:induction false} PathIsTaken(w: Wiring, s: World, r: World, e: Entry, n: Id, skip: nat, path: seq<Id>, x: Id)
    requires w.Keys == s.Keys == r.Keys
    requires Spread(w, s, r, e, n, skip) && n !in Ready(r, e)
    requires Path(w, Ready(s, e), n, skip, path, x)
    ensures x !in Ready(r, e)
    decreases path
  {
    if |path| > 1 {
      var y, front := path[|path| - 2], path[..|path| - 1];
      PathIsTaken(w, s, r, e, n, skip, front, y);
      assert Hop(w, path[|path| - 2], path[|path| - 1], n, skip);
    }
  }

  lemma {:induction false} TakenByInsertIsReached(w: Wiring, s: World, n: Id, source: nat, e: Entry, x: Id)
    requires Wired(w) && w.Keys == s.Keys && n in s
    requires x in Ready(s, e) - Ready(Insert(w, s, n, source, e), e)
    ensures Reaches(w, Ready(s, e), n, source, x)
    decreases Ready(s, e), 0
  {
    TakeOnce(s, n, e);
    if x == n {
      assert Path(w, Ready(s, e), n, source, [n], n);
    } else {
      TakenByForwardIsReached(w, s[n := Take(s[n], e)], n, source, e, 0, x, Ready(s, e));
    }
  }

  lemma {:induction false} TakenByForwardIsReached(w: Wiring, s: World, n: Id, source: nat, e: Entry, i: nat, x: Id, area: set<Id>)
    requires Wired(w) && w.Keys == s.Keys && n in s && i <= |w[n]|
    requires n !in Ready(s, e) && n in area && Ready(s, e) <= area
    requires x in Ready(s, e) - Ready(Forward(w, s, n, source, e, i), e)
    ensures Reaches(w, area, n, source, x)
    decreases Ready(s, e), |w[n]| - i + 1
  {
    if i == source || w[n][i].NoLink? {
      TakenByForwardIsReached(w, s, n, source, e, i + 1, x, area);
    } else {
      assert LinkOk(w, n, i);
      var Link(m, k) := w[n][i];
      var t := Insert(w, s, m, k, e);
      if x in Ready(t, e) {
        TakenByForwardIsReached(w, t, n, source, e, i + 1, x, area);
      } else {
        TakenByInsertIsReached(w, s, m, k, e, x);
        var path :| Path(w, Ready(s, e), m, k, path, x);
        assert Hop(w, n, m, n, source);
        PrependHop(w, Ready(s, e), area, n, source, m, k, path, x);
      }
    }
  }

  lemma PrependHop(w: Wiring, inner: set<Id>, area: set<Id>, n: Id, source: nat, m: Id, k: nat, path: seq<Id>, x: Id)
    requires n !in inner && n in area && inner <= area
    requires Hop(w, n, m, n, source) && Path(w, inner, m, k, path, x)
    ensures Reaches(w, area, n, source, x)
  {
    var longer := [n] + path;
    forall j | 0 < j < |longer| ensures Hop(w, longer[j - 1], longer[j], n, source) {
      if j > 1 {
        assert Hop(w, path[j - 2], path[j - 1], m, k);
        assert path[j - 2] in inner;
      }
    }
    assert Path(w, area, n, source, longer, x);
  }

  /** Flooding theorem: the journals that take the entry are exactly those reachable from the first
      one through journals that admit it; each saves it once and merges the stamp; no other changes. */
  lemma FloodTakesReachable(w: Wiring, s: World, n: Id, source: nat, e: Entry)
    requires Wired(w) && w.Keys == s.Keys && n in s
    ensures forall x | x in s ::
              Insert(w, s, n, source, e)[x] == if Reaches(w, Ready(s, e), n, source, x) then Take(s[x], e) else s[x]
  {
    var r := Insert(w, s, n, source, e);
    InsertTakes(w, s, n, source, e);
    forall x | x in s ensures Reaches(w, Ready(s, e), n, source, x) <==> x in Ready(s, e) - Ready(r, e) {
      if x in Ready(s, e) - Ready(r, e) {
        TakenByInsertIsReached(w, s, n, source, e, x);
      }
      if path :| Path(w, Ready(s, e), n, source, path, x) {
        PathIsTaken(w, s, r, e, n, source, path, x);
        assert path[|path| - 1] in Ready(s, e);
      }
    }
  }
}
