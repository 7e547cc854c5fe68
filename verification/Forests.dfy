/** Brokers wired as a forest: what lies beyond each port, and how many links away. The sides say which brokers each
    port leads to; they are disjoint at a broker, and hop counts along them are the shortest. */
module Forests {
  import opened Clocks
  import opened Flooding

  /** `far[n][i]`: the brokers beyond port `i` of `n`. */
  type Sides = map<Id, seq<set<Id>>>

  ghost predicate Port(w: Wiring, n: Id, i: nat) { n in w && i < |w[n]| && w[n][i].Link? }

  /** `m` itself and everything beyond its ports other than `s`. */
  ghost function Behind(far: Sides, m: Id, s: nat): set<Id>
    requires m in far
  {
    {m} + set j, x | 0 <= j < |far[m]| && j != s && x in far[m][j] :: x
  }

  /** No broker lies beyond its own ports, and no broker beyond two ports of another. */
  ghost predicate NodeOk(w: Wiring, far: Sides, n: Id)
    requires n in w && n in far
  {
    && |far[n]| == |w[n]|
    && (forall i | 0 <= i < |w[n]| :: n !in far[n][i] && (w[n][i].NoLink? ==> far[n][i] == {}))
    && (forall i, j | 0 <= i < j < |w[n]| :: far[n][i] !! far[n][j])
  }

  /** Beyond a port lie the peer and what is beyond the peer's other ports. */
  ghost predicate SideOk(w: Wiring, far: Sides, n: Id, i: nat)
    requires Port(w, n, i) && n in far && i < |far[n]|
  {
    w[n][i].peer in far && far[n][i] == Behind(far, w[n][i].peer, w[n][i].far)
  }

  /** The wiring has no cycle, and `far` says which side of each link every broker is on. */
  ghost predicate Forest(w: Wiring, far: Sides) {
    && Wired(w) && far.Keys == w.Keys
    && (forall n | n in w :: NodeOk(w, far, n))
    && (forall n, i {:trigger SideOk(w, far, n, i)} | Port(w, n, i) :: SideOk(w, far, n, i))
  }

  /** Everything connected to `n`: slot 0 leads nowhere. */
  ghost function Tree(far: Sides, n: Id): set<Id>
    requires n in far
  {
    Behind(far, n, 0)
  }

  lemma LinkFacts(w: Wiring, far: Sides, n: Id, i: nat)
    requires Forest(w, far) && Port(w, n, i)
    ensures var Link(m, s) := w[n][i];
            && i > 0 && NodeOk(w, far, n)
            && Port(w, m, s) && s > 0 && w[m][s] == Link(n, i) && NodeOk(w, far, m)
            && far[n][i] == Behind(far, m, s) && far[m][s] == Behind(far, n, i)
            && m in far[n][i] && n in far[m][s] && m != n
  {
    assert NodeOk(w, far, n) && LinkOk(w, n, i);
    var Link(m, s) := w[n][i];
    assert NodeOk(w, far, m) && SideOk(w, far, n, i) && SideOk(w, far, m, s);
  }

  /** Going on from the peer, less lies ahead. */
  lemma NarrowsAhead(w: Wiring, far: Sides, n: Id, i: nat, j: nat)
    requires Forest(w, far) && Port(w, n, i)
    requires var Link(m, s) := w[n][i]; j != s && m in w && j < |w[m]|
    ensures var Link(m, _) := w[n][i]; j < |far[m]| && far[m][j] < far[n][i]
  {
    LinkFacts(w, far, n, i);
    var m := w[n][i].peer;
    assert m !in far[m][j];
  }

  /** The port of `m` beyond which `x` lies. */
  ghost function PortTo(far: Sides, m: Id, x: Id): (j: nat)
    requires m in far && x in Tree(far, m) && x != m
    ensures j < |far[m]| && x in far[m][j]
  {
    var j :| 0 <= j < |far[m]| && x in far[m][j];
    j
  }

  lemma PortToIsUnique(w: Wiring, far: Sides, m: Id, x: Id, j: nat)
    requires Forest(w, far) && m in w && j < |far[m]| && x in far[m][j]
    ensures Port(w, m, j) && x in Tree(far, m) && x != m && PortTo(far, m, x) == j
  {
    assert NodeOk(w, far, m);
    var k := PortTo(far, m, x);
  }

  /** What lies ahead of `n` through port `i` is the peer or lies ahead of the peer, not back through the link. */
  lemma Ahead(w: Wiring, far: Sides, n: Id, i: nat, x: Id)
    requires Forest(w, far) && Port(w, n, i) && x in far[n][i] && x != w[n][i].peer
    ensures var Link(m, s) := w[n][i];
            && m in w && x in Tree(far, m)
            && PortTo(far, m, x) != s && Port(w, m, PortTo(far, m, x))
            && far[m][PortTo(far, m, x)] < far[n][i]
  {
    LinkFacts(w, far, n, i);
    var Link(m, s) := w[n][i];
    var j :| 0 <= j < |far[m]| && j != s && x in far[m][j];
    PortToIsUnique(w, far, m, x, j);
    NarrowsAhead(w, far, n, i, j);
  }

  /** The hop count of `x` beyond port `i` of `n`. */
  ghost function Dist(w: Wiring, far: Sides, n: Id, i: nat, x: Id): (d: nat)
    requires Forest(w, far) && Port(w, n, i) && i < |far[n]| && x in far[n][i]
    ensures d >= 1
    decreases far[n][i]
  {
    var m := w[n][i].peer;
    if x == m then 1
    else
      Ahead(w, far, n, i, x);
      1 + Dist(w, far, m, PortTo(far, m, x), x)
  }

  // Sides

  lemma OppositeSides(w: Wiring, far: Sides, n: Id, i: nat)
    requires Forest(w, far) && Port(w, n, i)
    ensures var Link(m, s) := w[n][i];
            m in far && s < |far[m]| && far[n][i] !! far[m][s] && Tree(far, n) == far[n][i] + far[m][s]
  {
    LinkFacts(w, far, n, i);
    var Link(m, s) := w[n][i];
    forall x | x in far[n][i] ensures x !in far[m][s] {
      if x != m {
        var j :| 0 <= j < |far[m]| && j != s && x in far[m][j];
        assert j < s ==> far[m][j] !! far[m][s];
        assert s < j ==> far[m][s] !! far[m][j];
      }
    }
    TreeSplits(w, far, n, i);
  }

  lemma TreeSplits(w: Wiring, far: Sides, n: Id, i: nat)
    requires Forest(w, far) && n in w && i < |w[n]|
    ensures i < |far[n]| && Tree(far, n) == far[n][i] + Behind(far, n, i)
  {
    assert NodeOk(w, far, n);
    forall x | x in far[n][i] + Behind(far, n, i) ensures x in Tree(far, n) {
      if x in far[n][i] {
        assert i != 0;
      } else if x != n {
        var j :| 0 <= j < |far[n]| && j != i && x in far[n][j];
        assert j != 0;
      }
    }
  }

  lemma NeighboursShareTree(w: Wiring, far: Sides, n: Id, i: nat)
    requires Forest(w, far) && Port(w, n, i)
    ensures w[n][i].peer in far && Tree(far, n) == Tree(far, w[n][i].peer)
  {
    LinkFacts(w, far, n, i);
    var Link(m, s) := w[n][i];
    OppositeSides(w, far, n, i);
    OppositeSides(w, far, m, s);
  }

  lemma {:induction false} BeyondSharesTree(w: Wiring, far: Sides, n: Id, i: nat, x: Id)
    requires Forest(w, far) && Port(w, n, i) && i < |far[n]| && x in far[n][i]
    ensures x in far && Tree(far, n) == Tree(far, x)
    decreases far[n][i]
  {
    NeighboursShareTree(w, far, n, i);
    var m := w[n][i].peer;
    if x != m {
      Ahead(w, far, n, i, x);
      BeyondSharesTree(w, far, m, PortTo(far, m, x), x);
    }
  }

  /** Trees partition the brokers. */
  lemma TreesPartition(w: Wiring, far: Sides, n: Id, x: Id)
    requires Forest(w, far) && n in w && x in Tree(far, n)
    ensures x in w && Tree(far, n) == Tree(far, x)
  {
    if x != n {
      PortToIsUnique(w, far, n, x, PortTo(far, n, x));
      BeyondSharesTree(w, far, n, PortTo(far, n, x), x);
    }
  }

  lemma DifferentTreesAreDisjoint(w: Wiring, far: Sides, a: Id, b: Id)
    requires Forest(w, far) && a in w && b in w && b !in Tree(far, a)
    ensures Tree(far, a) !! Tree(far, b) && a !in Tree(far, b)
  {
    forall x | x in Tree(far, a) ensures x !in Tree(far, b) {
      if x in Tree(far, b) {
        TreesPartition(w, far, a, x);
        TreesPartition(w, far, b, x);
      }
    }
  }

  /** Seen from any third broker, the two ends of a link lie beyond the same port. */
  lemma {:induction false} EndsOnSameSide(w: Wiring, far: Sides, m: Id, s: nat, k: Id, j: nat)
    requires Forest(w, far) && Port(w, m, s) && Port(w, k, j) && j < |far[k]|
    requires k != m && k != w[m][s].peer && m in far[k][j]
    ensures w[m][s].peer in far[k][j]
    decreases far[k][j]
  {
    LinkFacts(w, far, k, j);
    LinkFacts(w, far, m, s);
    var Link(p, r) := w[k][j];
    var n := w[m][s].peer;
    if p == m {
      assert r != s;
      assert n in far[m][s];
    } else if p != n {
      Ahead(w, far, k, j, m);
      EndsOnSameSide(w, far, m, s, p, PortTo(far, p, m));
    }
  }

  // The hop count is the length of a shortest path

  /** Links between `n` and `x`. */
  ghost function Hops(w: Wiring, far: Sides, n: Id, x: Id): nat
    requires Forest(w, far) && n in w && x in Tree(far, n)
  {
    if x == n then 0
    else
      PortToIsUnique(w, far, n, x, PortTo(far, n, x));
      Dist(w, far, n, PortTo(far, n, x), x)
  }

  lemma NeighbourHops(w: Wiring, far: Sides, n: Id, i: nat, x: Id)
    requires Forest(w, far) && Port(w, n, i) && i < |far[n]| && x in far[n][i]
    ensures w[n][i].peer in w && x in Tree(far, w[n][i].peer) && x in Tree(far, n)
    ensures Hops(w, far, n, x) == 1 + Hops(w, far, w[n][i].peer, x) == Dist(w, far, n, i, x)
  {
    LinkFacts(w, far, n, i);
    NeighboursShareTree(w, far, n, i);
    PortToIsUnique(w, far, n, x, i);
    if x != w[n][i].peer {
      Ahead(w, far, n, i, x);
    }
  }

  /** A walk along links. */
  ghost predicate Walk(w: Wiring, path: seq<Id>) {
    && |path| > 0 && path[0] in w
    && forall k | 0 < k < |path| :: Adjacent(w, path[k - 1], path[k])
  }

  ghost predicate Adjacent(w: Wiring, n: Id, m: Id) { exists i: nat :: Port(w, n, i) && w[n][i].peer == m }

  /** The hop count is attained by no shorter walk: every walk to `x` has at least that many links. */
  lemma {:induction false} HopsIsShortest(w: Wiring, far: Sides, path: seq<Id>)
    requires Forest(w, far) && Walk(w, path)
    ensures path[|path| - 1] in Tree(far, path[0])
    ensures Hops(w, far, path[0], path[|path| - 1]) <= |path| - 1
    decreases |path|
  {
    var n, x := path[0], path[|path| - 1];
    if |path| > 1 {
      var m, rest := path[1], path[1..];
      assert Adjacent(w, path[0], path[1]);
      var i: nat :| Port(w, n, i) && w[n][i].peer == m;
      LinkFacts(w, far, n, i);
      forall k | 0 < k < |rest| ensures Adjacent(w, rest[k - 1], rest[k]) {
        assert Adjacent(w, path[k], path[k + 1]);
      }
      HopsIsShortest(w, far, rest);
      NeighboursShareTree(w, far, n, i);
      OneHopApart(w, far, n, i, x);
    }
  }

  /** Across a link the hop count of any broker of the tree changes by one. */
  lemma OneHopApart(w: Wiring, far: Sides, n: Id, i: nat, x: Id)
    requires Forest(w, far) && Port(w, n, i) && i < |far[n]| && x in Tree(far, n)
    ensures var m := w[n][i].peer;
            && m in w && x in Tree(far, m)
            && if x in far[n][i] then Hops(w, far, n, x) == 1 + Hops(w, far, m, x)
               else Hops(w, far, m, x) == 1 + Hops(w, far, n, x)
  {
    LinkFacts(w, far, n, i);
    OppositeSides(w, far, n, i);
    NeighboursShareTree(w, far, n, i);
    var Link(m, s) := w[n][i];
    if x in far[n][i] {
      NeighbourHops(w, far, n, i, x);
    } else {
      NeighbourHops(w, far, m, s, x);
    }
  }
}
