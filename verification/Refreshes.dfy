/** The refresh cascade: a changed table is passed on, recomputed, to every other port. */
module Refreshes {
  import opened Clocks
  import opened Flooding
  import opened Forests
  import opened Tables

  /** Broker::refresh at port `s` of `m`: take the new table, then refresh the other ports. */
  ghost function Refresh(own: set<Id>, w: Wiring, far: Sides, t: Held, m: Id, s: nat, table: Table): (r: Held)
    requires Forest(w, far) && Fits(w, t) && Port(w, m, s)
    ensures Fits(w, r)
    decreases Behind(far, m, s), |w[m]|
  {
    RefreshOthers(own, w, far, t[m := t[m][s := table]], m, s, 1)
  }

  /** Broker::refreshConnections from port `i` on: each peer but the ignored one is sent what `m` provides there. */
  ghost function RefreshOthers(own: set<Id>, w: Wiring, far: Sides, t: Held, m: Id, ignore: nat, i: nat): (r: Held)
    requires Forest(w, far) && Fits(w, t) && m in w && 1 <= i <= |w[m]|
    ensures Fits(w, r)
    decreases Behind(far, m, ignore), |w[m]| - i
  {
    if i == |w[m]| then t
    else if i == ignore || w[m][i].NoLink? then RefreshOthers(own, w, far, t, m, ignore, i + 1)
    else
      LinkFacts(w, far, m, i);
      BehindNarrows(w, far, m, ignore, i);
      var next := Refresh(own, w, far, t, w[m][i].peer, w[m][i].far, Provides(own, w, t, m, i));
      RefreshOthers(own, w, far, next, m, ignore, i + 1)
  }

  lemma BehindNarrows(w: Wiring, far: Sides, m: Id, ignore: nat, i: nat)
    requires Forest(w, far) && Port(w, m, i) && i != ignore
    ensures w[m][i].peer in far && i < |far[m]|
    ensures Behind(far, w[m][i].peer, w[m][i].far) == far[m][i] < Behind(far, m, ignore)
  {
    LinkFacts(w, far, m, i);
    assert m !in far[m][i];
  }

  /** All tables held by the brokers of `side` are exact. */
  ghost predicate SideExact(own: set<Id>, w: Wiring, far: Sides, t: Held, side: set<Id>)
    requires Forest(w, far) && Fits(w, t)
  {
    forall k, j: nat {:trigger Port(w, k, j)} | k in side && Port(w, k, j) :: IsExact(own, w, far, t, k, j)
  }

  /** All but those for ports that lead back to `root`. */
  ghost predicate ForwardExact(own: set<Id>, w: Wiring, far: Sides, t: Held, side: set<Id>, root: Id)
    requires Forest(w, far) && Fits(w, t)
  {
    forall k, j: nat {:trigger Port(w, k, j)} | k in side && Port(w, k, j) ::
      j < |far[k]| && (root !in far[k][j] ==> IsExact(own, w, far, t, k, j))
  }

  /** `r` differs from `t` only at brokers of `side`. */
  ghost predicate SameOutside(t: Held, r: Held, side: set<Id>) {
    t.Keys == r.Keys && forall k | k in t && k !in side :: r[k] == t[k]
  }

  /** What one refresh message does: on the receiving side, tables that lead back to the sender become
      exact (the rest were already), and nothing changes on the sending side. */
  lemma {:induction false} RefreshSpreads(own: set<Id>, w: Wiring, far: Sides, t: Held, m: Id, s: nat, table: Table)
    requires Forest(w, far) && Fits(w, t) && Port(w, m, s) && s < |far[m]|
    requires table == Exact(own, w, far, m, s)
    requires ForwardExact(own, w, far, t, Behind(far, m, s), w[m][s].peer)
    ensures SideExact(own, w, far, Refresh(own, w, far, t, m, s, table), Behind(far, m, s))
    ensures SameOutside(t, Refresh(own, w, far, t, m, s, table), Behind(far, m, s))
    decreases Behind(far, m, s), |w[m]|
  {
    LinkFacts(w, far, m, s);
    var u := t[m := t[m][s := table]];
    ReceiverIsExact(own, w, far, t, m, s, table);
    RootMoves(own, w, far, t, u, m, s);
    RestIsBehind(w, far, m, s);
    OthersSpread(own, w, far, u, RefreshOthers(own, w, far, u, m, s, 1), m, s, 1);
    JoinSides(own, w, far, u, RefreshOthers(own, w, far, u, m, s, 1), m, Rest(far, m, s, 1));
  }

  /** Everything beyond the ports of `m` from `i` on, but for the ignored one. */
  ghost function Rest(far: Sides, m: Id, ignore: nat, i: nat): set<Id>
    requires m in far
  {
    set j, x | i <= j < |far[m]| && j != ignore && x in far[m][j] :: x
  }

  lemma RestIsBehind(w: Wiring, far: Sides, m: Id, ignore: nat)
    requires Forest(w, far) && m in w
    ensures m !in Rest(far, m, ignore, 1) && Behind(far, m, ignore) == {m} + Rest(far, m, ignore, 1)
  {
    assert NodeOk(w, far, m);
    assert w[m][0].NoLink?;
  }

  lemma RestStep(w: Wiring, far: Sides, m: Id, ignore: nat, i: nat)
    requires Forest(w, far) && m in w && i < |w[m]|
    ensures i < |far[m]|
    ensures if i == ignore || w[m][i].NoLink? then Rest(far, m, ignore, i) == Rest(far, m, ignore, i + 1)
            else Rest(far, m, ignore, i) == far[m][i] + Rest(far, m, ignore, i + 1)
    ensures far[m][i] !! Rest(far, m, ignore, i + 1) && m !in far[m][i]
  {
    assert NodeOk(w, far, m);
  }

  lemma JoinSides(own: set<Id>, w: Wiring, far: Sides, t: Held, r: Held, m: Id, side: set<Id>)
    requires Forest(w, far) && Fits(w, t) && Fits(w, r) && m in w && m !in side
    requires SideExact(own, w, far, t, {m}) && SameOutside(t, r, side) && SideExact(own, w, far, r, side)
    ensures SideExact(own, w, far, r, {m} + side)
  {
    forall j: nat | Port(w, m, j) ensures IsExact(own, w, far, r, m, j) {
      assert IsExact(own, w, far, t, m, j);
    }
  }

  lemma ReceiverIsExact(own: set<Id>, w: Wiring, far: Sides, t: Held, m: Id, s: nat, table: Table)
    requires Forest(w, far) && Fits(w, t) && Port(w, m, s) && s < |far[m]|
    requires table == Exact(own, w, far, m, s)
    requires ForwardExact(own, w, far, t, Behind(far, m, s), w[m][s].peer)
    ensures SideExact(own, w, far, t[m := t[m][s := table]], {m})
  {
    LinkFacts(w, far, m, s);
    var u := t[m := t[m][s := table]];
    forall j: nat | Port(w, m, j) ensures IsExact(own, w, far, u, m, j) {
      assert j < s ==> far[m][j] !! far[m][s];
    }
  }

  /** Past the receiver, leading back to the receiver is leading back to the sender. */
  lemma RootMoves(own: set<Id>, w: Wiring, far: Sides, t: Held, u: Held, m: Id, s: nat)
    requires Forest(w, far) && Fits(w, t) && Fits(w, u) && Port(w, m, s) && SameOutside(t, u, {m})
    requires ForwardExact(own, w, far, t, Behind(far, m, s), w[m][s].peer)
    ensures ForwardExact(own, w, far, u, Rest(far, m, s, 1), m)
  {
    LinkFacts(w, far, m, s);
    var Link(n, i) := w[m][s];
    RestIsBehind(w, far, m, s);
    forall k, j: nat | k in Rest(far, m, s, 1) && Port(w, k, j)
      ensures j < |far[k]| && (m !in far[k][j] ==> IsExact(own, w, far, u, k, j))
    {
      if n in far[k][j] {
        assert k != n by { assert n !in far[n][i]; }
        EndsOnSameSide(w, far, n, i, k, j);
      }
    }
  }

  lemma StillForward(own: set<Id>, w: Wiring, far: Sides, t: Held, next: Held, m: Id, i: nat, side: set<Id>)
    requires Forest(w, far) && Fits(w, t) && Fits(w, next) && Port(w, m, i) && i < |far[m]|
    requires SameOutside(t, next, far[m][i]) && far[m][i] !! side && m !in far[m][i]
    requires SideExact(own, w, far, t, {m}) && ForwardExact(own, w, far, t, side, m)
    ensures SideExact(own, w, far, next, {m}) && ForwardExact(own, w, far, next, side, m)
  {
    forall j: nat | Port(w, m, j) ensures IsExact(own, w, far, next, m, j) {
      assert IsExact(own, w, far, t, m, j);
    }
  }

  lemma OneMorePort(own: set<Id>, w: Wiring, far: Sides, t: Held, next: Held, r: Held, here: set<Id>, rest: set<Id>)
    requires Forest(w, far) && Fits(w, t) && Fits(w, next) && Fits(w, r) && here !! rest
    requires SideExact(own, w, far, next, here) && SameOutside(t, next, here)
    requires SideExact(own, w, far, r, rest) && SameOutside(next, r, rest)
    ensures SideExact(own, w, far, r, here + rest) && SameOutside(t, r, here + rest)
  {
    forall k, j: nat | k in here && Port(w, k, j) ensures IsExact(own, w, far, r, k, j) {
      assert IsExact(own, w, far, next, k, j);
    }
  }

  /** The rest of the loop at `m`, whose own tables are exact: what lies beyond the ports still to come
      becomes exact, and nothing else changes. */
  lemma {:induction false} OthersSpread(own: set<Id>, w: Wiring, far: Sides, t: Held, r: Held, m: Id, ignore: nat, i: nat)
    requires Forest(w, far) && Fits(w, t) && m in w && 1 <= i <= |w[m]|
    requires SideExact(own, w, far, t, {m}) && ForwardExact(own, w, far, t, Rest(far, m, ignore, i), m)
    requires r == RefreshOthers(own, w, far, t, m, ignore, i)
    ensures SideExact(own, w, far, r, Rest(far, m, ignore, i)) && SameOutside(t, r, Rest(far, m, ignore, i))
    decreases Behind(far, m, ignore), |w[m]| - i
  {
    assert NodeOk(w, far, m);
    if i < |w[m]| {
      RestStep(w, far, m, ignore, i);
      if i == ignore || w[m][i].NoLink? {
        OthersSpread(own, w, far, t, r, m, ignore, i + 1);
      } else {
        var next := RestSpreads(own, w, far, t, r, m, ignore, i);
        OneMorePort(own, w, far, t, next, r, far[m][i], Rest(far, m, ignore, i + 1));
      }
    }
  }

  /** One message out of the loop with its whole cascade, then the rest of the loop. */
  lemma {:induction false} RestSpreads(own: set<Id>, w: Wiring, far: Sides, t: Held, r: Held, m: Id, ignore: nat, i: nat)
      returns (next: Held)
    requires Forest(w, far) && Fits(w, t) && Port(w, m, i) && 1 <= i && i != ignore && i < |far[m]|
    requires SideExact(own, w, far, t, {m}) && ForwardExact(own, w, far, t, Rest(far, m, ignore, i), m)
    requires r == RefreshOthers(own, w, far, t, m, ignore, i)
    ensures Fits(w, next) && SideExact(own, w, far, next, far[m][i]) && SameOutside(t, next, far[m][i])
    ensures var rest := Rest(far, m, ignore, i + 1); SideExact(own, w, far, r, rest) && SameOutside(next, r, rest)
    decreases Behind(far, m, ignore), |w[m]| - i, 0
  {
    BehindNarrows(w, far, m, ignore, i);
    LinkFacts(w, far, m, i);
    RestStep(w, far, m, ignore, i);
    var Link(k, s) := w[m][i];
    OfferIsExact(own, w, far, t, m, i);
    var table := Provides(own, w, t, m, i);
    RefreshSpreads(own, w, far, t, k, s, table);
    next := Refresh(own, w, far, t, k, s, table);
    StillForward(own, w, far, t, next, m, i, Rest(far, m, ignore, i + 1));
    OthersSpread(own, w, far, next, r, m, ignore, i + 1);
  }
}
