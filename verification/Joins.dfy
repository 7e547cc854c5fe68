/** Linking two trees of brokers gives one tree. Each end gets one more port, beyond which the other tree now lies;
    ports that led to one end lead to both trees, and all others are as they were. */
module Joins {
  import opened Clocks
  import opened Flooding
  import opened Forests
  import opened Tables

  /** `a` and `b` each get one more port, leading to the other's. */
  function Join(w: Wiring, a: Id, b: Id): Wiring
    requires a in w && b in w && a != b
  {
    w[a := w[a] + [Link(b, |w[b]|)]][b := w[b] + [Link(a, |w[a]|)]]
  }

  /** Behind a port that leads to one end of the new link now lies the other end's tree too. */
  ghost function JoinedSide(far: Sides, a: Id, b: Id, side: set<Id>): set<Id>
    requires a in far && b in far
  {
    if a in side then side + Tree(far, b) else if b in side then side + Tree(far, a) else side
  }

  ghost function JoinedSides(far: Sides, a: Id, b: Id, sides: seq<set<Id>>): (r: seq<set<Id>>)
    requires a in far && b in far
    ensures |r| == |sides| && forall i | 0 <= i < |sides| :: r[i] == JoinedSide(far, a, b, sides[i])
  {
    seq(|sides|, i requires 0 <= i < |sides| => JoinedSide(far, a, b, sides[i]))
  }

  ghost function JoinFar(far: Sides, a: Id, b: Id): (r: Sides)
    requires a in far && b in far && a != b
    ensures r.Keys == far.Keys
  {
    map n | n in far :: JoinedSides(far, a, b, far[n]) +
                        (if n == a then [Tree(far, b)] else if n == b then [Tree(far, a)] else [])
  }

  ghost predicate Joinable(w: Wiring, far: Sides, a: Id, b: Id) {
    Forest(w, far) && a in w && b in w && b !in Tree(far, a)
  }

  lemma EndsDiffer(w: Wiring, far: Sides, a: Id, b: Id)
    requires Joinable(w, far, a, b)
    ensures a != b && Tree(far, a) !! Tree(far, b) && Joinable(w, far, b, a)
  {
    DifferentTreesAreDisjoint(w, far, a, b);
  }

  /** Old ports keep their slots; their sides may have grown. */
  lemma OldPort(w: Wiring, far: Sides, a: Id, b: Id, n: Id, i: nat)
    requires Joinable(w, far, a, b) && a != b && n in w && i < |w[n]|
    ensures var far' := JoinFar(far, a, b);
            && |far[n]| == |w[n]| && |far'[n]| == |Join(w, a, b)[n]|
            && i < |far'[n]| && Join(w, a, b)[n][i] == w[n][i]
            && far'[n][i] == JoinedSide(far, a, b, far[n][i])
  {
    assert NodeOk(w, far, n);
  }

  lemma NewPort(w: Wiring, far: Sides, a: Id, b: Id)
    requires Joinable(w, far, a, b) && a != b
    ensures var w', far' := Join(w, a, b), JoinFar(far, a, b);
            && |far[a]| == |w[a]| && |far[b]| == |w[b]|
            && |far'[a]| == |w'[a]| == |w[a]| + 1 && |far'[b]| == |w'[b]| == |w[b]| + 1
            && w'[a][|w[a]|] == Link(b, |w[b]|) && far'[a][|w[a]|] == Tree(far, b)
            && w'[b][|w[b]|] == Link(a, |w[a]|) && far'[b][|w[b]|] == Tree(far, a)
  {
    assert NodeOk(w, far, a) && NodeOk(w, far, b);
  }

  /** On any graph. */
  lemma JoinIsWired(w: Wiring, a: Id, b: Id)
    requires Wired(w) && a in w && b in w && a != b
    ensures Wired(Join(w, a, b))
  {
    var w': Wiring := Join(w, a, b);
    forall n: Id, i: nat | n in w' && 0 <= i < |w'[n]| && w'[n][i].Link? ensures LinkOk(w', n, i) {
      if i < |w[n]| {
        assert w'[n][i] == w[n][i];
        assert LinkOk(w, n, i);
      }
    }
  }

  /** A side that reaches `a` belongs to a broker of `a`'s tree, so what is added to it is new there. */
  lemma GrowsByStrangers(w: Wiring, far: Sides, a: Id, b: Id, n: Id, i: nat)
    requires Joinable(w, far, a, b) && n in w && i < |w[n]|
    ensures i < |far[n]|
    ensures a in far[n][i] ==> Tree(far, n) == Tree(far, a) && Tree(far, n) !! Tree(far, b)
    ensures b in far[n][i] ==> Tree(far, n) == Tree(far, b) && Tree(far, n) !! Tree(far, a)
    ensures far[n][i] <= Tree(far, n)
  {
    assert NodeOk(w, far, n);
    EndsDiffer(w, far, a, b);
    TreeSplits(w, far, n, i);
    if a in far[n][i] {
      TreesPartition(w, far, n, a);
    }
    if b in far[n][i] {
      TreesPartition(w, far, n, b);
    }
  }

  lemma OldSlotsStayApart(w: Wiring, far: Sides, a: Id, b: Id, n: Id, i: nat, j: nat)
    requires Joinable(w, far, a, b) && n in w && i < j < |w[n]|
    ensures j < |far[n]| && JoinedSide(far, a, b, far[n][i]) !! JoinedSide(far, a, b, far[n][j])
  {
    assert NodeOk(w, far, n);
    EndsDiffer(w, far, a, b);
    assert far[n][i] !! far[n][j];
    GrowsByStrangers(w, far, a, b, n, i);
    GrowsByStrangers(w, far, a, b, n, j);
  }

  lemma OldSlotIsOk(w: Wiring, far: Sides, a: Id, b: Id, n: Id, i: nat)
    requires Joinable(w, far, a, b) && n in w && i < |w[n]|
    ensures i < |far[n]| && n !in JoinedSide(far, a, b, far[n][i])
    ensures w[n][i].NoLink? ==> JoinedSide(far, a, b, far[n][i]) == {}
    ensures n == a ==> JoinedSide(far, a, b, far[n][i]) == far[n][i] <= Tree(far, a)
    ensures n == b ==> JoinedSide(far, a, b, far[n][i]) == far[n][i] <= Tree(far, b)
  {
    assert NodeOk(w, far, n);
    EndsDiffer(w, far, a, b);
    GrowsByStrangers(w, far, a, b, n, i);
    assert n in Tree(far, n);
  }

  lemma JoinNodeOk(w: Wiring, far: Sides, a: Id, b: Id, n: Id)
    requires Joinable(w, far, a, b) && a != b && n in w
    ensures NodeOk(Join(w, a, b), JoinFar(far, a, b), n)
  {
    var w': Wiring, far': Sides := Join(w, a, b), JoinFar(far, a, b);
    NewPort(w, far, a, b);
    EndsDiffer(w, far, a, b);
    assert NodeOk(w, far, n);
    forall i | 0 <= i < |w'[n]| ensures n !in far'[n][i] && (w'[n][i].NoLink? ==> far'[n][i] == {}) {
      if i < |w[n]| {
        OldPort(w, far, a, b, n, i);
        OldSlotIsOk(w, far, a, b, n, i);
      }
    }
    forall i, j | 0 <= i < j < |w'[n]| ensures far'[n][i] !! far'[n][j] {
      OldPort(w, far, a, b, n, i);
      OldSlotIsOk(w, far, a, b, n, i);
      if j < |w[n]| {
        OldPort(w, far, a, b, n, j);
        OldSlotsStayApart(w, far, a, b, n, i, j);
      }
    }
  }

  lemma GrownBehind(w: Wiring, far: Sides, a: Id, b: Id, m: Id, s: nat, x: Id)
    requires Joinable(w, far, a, b) && a != b && m in w && s < |w[m]|
    requires x in Behind(JoinFar(far, a, b), m, s)
    ensures x in JoinedSide(far, a, b, Behind(far, m, s))
  {
    var far': Sides := JoinFar(far, a, b);
    NewPort(w, far, a, b);
    EndsDiffer(w, far, a, b);
    BehindIsInTree(w, far, m, s);
    if x != m {
      var j :| 0 <= j < |far'[m]| && j != s && x in far'[m][j];
      assert NodeOk(w, far, m);
      if j < |w[m]| {
        OldPort(w, far, a, b, m, j);
        assert far[m][j] <= Behind(far, m, s);
        OneEndInTree(w, far, a, b, m);
      } else {
        OneEndInTree(w, far, a, b, m);
      }
    }
  }

  lemma BehindIsInTree(w: Wiring, far: Sides, m: Id, s: nat)
    requires Forest(w, far) && m in w
    ensures Behind(far, m, s) <= Tree(far, m)
  {
    assert NodeOk(w, far, m);
    forall x | x in Behind(far, m, s) ensures x in Tree(far, m) {
      if x != m {
        var j :| 0 <= j < |far[m]| && j != s && x in far[m][j];
        assert j != 0;
      }
    }
  }

  lemma OneEndInTree(w: Wiring, far: Sides, a: Id, b: Id, m: Id)
    requires Joinable(w, far, a, b) && m in w
    ensures !(a in Tree(far, m) && b in Tree(far, m))
  {
    if a in Tree(far, m) {
      TreesPartition(w, far, m, a);
    }
  }

  lemma StillBehind(w: Wiring, far: Sides, a: Id, b: Id, m: Id, s: nat, x: Id)
    requires Joinable(w, far, a, b) && a != b && m in w && s < |w[m]|
    requires x in JoinedSide(far, a, b, Behind(far, m, s))
    ensures x in Behind(JoinFar(far, a, b), m, s)
  {
    var far': Sides := JoinFar(far, a, b);
    NewPort(w, far, a, b);
    assert NodeOk(w, far, m);
    if x in Behind(far, m, s) {
      if x != m {
        var j :| 0 <= j < |far[m]| && j != s && x in far[m][j];
        OldPort(w, far, a, b, m, j);
        assert x in far'[m][j];
      }
    } else {
      var end := if a in Behind(far, m, s) then a else b;
      if m == end {
        assert x in far'[m][|w[m]|];
      } else {
        var j :| 0 <= j < |far[m]| && j != s && end in far[m][j];
        OldPort(w, far, a, b, m, j);
        BehindIsInTree(w, far, m, s);
        GrowsByStrangers(w, far, a, b, m, j);
        OneEndInTree(w, far, a, b, m);
        assert x in far'[m][j];
      }
    }
  }

  lemma JoinSideOk(w: Wiring, far: Sides, a: Id, b: Id, n: Id, i: nat)
    requires Joinable(w, far, a, b) && a != b && Port(w, n, i)
    ensures var w', far' := Join(w, a, b), JoinFar(far, a, b);
            Port(w', n, i) && i < |far'[n]| && SideOk(w', far', n, i)
  {
    LinkFacts(w, far, n, i);
    OldPort(w, far, a, b, n, i);
    var Link(m, s) := w[n][i];
    var far': Sides := JoinFar(far, a, b);
    forall x ensures x in far'[n][i] <==> x in Behind(far', m, s) {
      if x in Behind(far', m, s) {
        GrownBehind(w, far, a, b, m, s, x);
      }
      if x in far'[n][i] {
        StillBehind(w, far, a, b, m, s, x);
      }
    }
    assert far'[n][i] == Behind(far', m, s);
  }

  lemma NewSideOk(w: Wiring, far: Sides, a: Id, b: Id)
    requires Joinable(w, far, a, b) && a != b
    ensures Tree(far, b) == Behind(JoinFar(far, a, b), b, |w[b]|)
    ensures Tree(far, a) == Behind(JoinFar(far, a, b), a, |w[a]|)
  {
    NewPort(w, far, a, b);
    OwnSidesStay(w, far, a, b, a);
    OwnSidesStay(w, far, a, b, b);
    assert far[a][0] == {} && far[b][0] == {} by { assert NodeOk(w, far, a) && NodeOk(w, far, b); }
  }

  lemma OwnSidesStay(w: Wiring, far: Sides, a: Id, b: Id, n: Id)
    requires Joinable(w, far, a, b) && a != b && (n == a || n == b)
    ensures JoinFar(far, a, b)[n][..|w[n]|] == far[n]
  {
    var far': Sides := JoinFar(far, a, b);
    NewPort(w, far, a, b);
    forall j | 0 <= j < |w[n]| ensures far'[n][j] == far[n][j] {
      OldPort(w, far, a, b, n, j);
      OldSlotIsOk(w, far, a, b, n, j);
    }
  }

  /** Two trees linked by one connection are a tree, beyond whose new ports lie the two old trees. */
  lemma JoinIsForest(w: Wiring, far: Sides, a: Id, b: Id)
    requires Joinable(w, far, a, b)
    ensures a != b && Forest(Join(w, a, b), JoinFar(far, a, b))
  {
    EndsDiffer(w, far, a, b);
    var w': Wiring, far': Sides := Join(w, a, b), JoinFar(far, a, b);
    JoinIsWired(w, a, b);
    NewPort(w, far, a, b);
    NewSideOk(w, far, a, b);
    forall n | n in w' ensures NodeOk(w', far', n) {
      JoinNodeOk(w, far, a, b, n);
    }
    forall n: Id, i: nat | Port(w', n, i) ensures SideOk(w', far', n, i) {
      if i < |w[n]| {
        OldPort(w, far, a, b, n, i);
        JoinSideOk(w, far, a, b, n, i);
      }
    }
  }
}
