/** Connecting two trees of brokers leaves every table exact. */
module Connects {
  import opened Clocks
  import opened Flooding
  import opened Forests
  import opened Tables
  import opened Refreshes
  import opened Joins

  /** What exchanging an entry leaves behind: the author, at distance 0, in the table of a port the entry
      came in through, if it was not there. */
  datatype Note = Note(at: Id, port: nat, author: Id)

  ghost function AddNotes(w: Wiring, t: Held, notes: seq<Note>): (r: Held)
    requires Fits(w, t) && forall x | x in notes :: Port(w, x.at, x.port)
    ensures Fits(w, r)
    decreases notes
  {
    if notes == [] then t
    else
      var Note(n, i, author) := notes[0];
      assert Port(w, n, i);
      var table := t[n][i];
      var noted := if author in table then t else t[n := t[n][i := table[author := 0]]];
      AddNotes(w, noted, notes[1..])
  }

  /** Authors sit on the sending side. */
  ghost predicate NotesOk(own: set<Id>, w: Wiring, far: Sides, notes: seq<Note>) {
    forall x | x in notes :: Port(w, x.at, x.port) && x.at in far && x.port < |far[x.at]| &&
                             x.author in own && x.author in far[x.at][x.port]
  }

  ghost function AddSlots(t: Held, a: Id, b: Id): Held
    requires a in t && b in t
  {
    t[a := t[a] + [map[]]][b := t[b] + [map[]]]
  }

  ghost predicate Linkable(w: Wiring, far: Sides, t: Held, a: Id, b: Id) {
    Joinable(w, far, a, b) && Fits(w, t) && a != b && Forest(Join(w, a, b), JoinFar(far, a, b))
  }

  /** `b` takes `a`'s table for its new port and refreshes its tree. */
  ghost function Theirs(own: set<Id>, w: Wiring, far: Sides, t: Held, a: Id, b: Id): (r: Held)
    requires Linkable(w, far, t, a, b)
    ensures Fits(Join(w, a, b), r)
  {
    var w', start := Join(w, a, b), AddSlots(t, a, b);
    Refresh(own, w', JoinFar(far, a, b), start, b, |w[b]|, Provides(own, w', start, a, |w[a]|))
  }

  /** `a` puts `b`'s answer under its own new port. */
  ghost function Filled(own: set<Id>, w: Wiring, a: Id, b: Id, theirs: Held): (r: Held)
    requires a in w && b in w && a != b && Fits(Join(w, a, b), theirs)
    ensures Fits(Join(w, a, b), r)
  {
    theirs[a := theirs[a][|w[a]| := Provides(own, Join(w, a, b), theirs, b, |w[b]|)]]
  }

  ghost function Answered(own: set<Id>, w: Wiring, far: Sides, t: Held, a: Id, b: Id): (r: Held)
    requires Linkable(w, far, t, a, b)
    ensures Fits(Join(w, a, b), r)
  {
    Filled(own, w, a, b, Theirs(own, w, far, t, a, b))
  }

  /** Broker::connect, called at `a` for `b`: tables are exchanged, then entries, and `a` refreshes its tree. */
  ghost function Connect(own: set<Id>, w: Wiring, far: Sides, t: Held, a: Id, b: Id, notes: seq<Note>): (r: Held)
    requires Linkable(w, far, t, a, b) && NotesOk(own, Join(w, a, b), JoinFar(far, a, b), notes)
    ensures Fits(Join(w, a, b), r)
  {
    var w' := Join(w, a, b);
    RefreshOthers(own, w', JoinFar(far, a, b), AddNotes(w', Answered(own, w, far, t, a, b), notes), a, |w[a]|, 1)
  }

  // Distances inside the old trees stay

  lemma {:induction false} DistStays(w: Wiring, far: Sides, a: Id, b: Id, n: Id, i: nat, x: Id)
    requires Joinable(w, far, a, b) && Port(w, n, i) && i < |far[n]| && x in far[n][i]
    requires a !in far[n][i] && b !in far[n][i]
    ensures var w', far' := Join(w, a, b), JoinFar(far, a, b);
            && Forest(w', far') && Port(w', n, i) && i < |far'[n]| && far'[n][i] == far[n][i]
            && Dist(w', far', n, i, x) == Dist(w, far, n, i, x)
    decreases far[n][i]
  {
    JoinIsForest(w, far, a, b);
    OldPort(w, far, a, b, n, i);
    LinkFacts(w, far, n, i);
    var w': Wiring, far': Sides, m := Join(w, a, b), JoinFar(far, a, b), w[n][i].peer;
    if x != m {
      Ahead(w, far, n, i, x);
      var j := PortTo(far, m, x);
      OldPort(w, far, a, b, m, j);
      DistStays(w, far, a, b, m, j, x);
      PortToIsUnique(w', far', m, x, j);
      Ahead(w', far', n, i, x);
    }
  }

  /** An exact table of a port that leads to neither end is exact after the join. */
  lemma ExactStays(own: set<Id>, w: Wiring, far: Sides, t: Held, u: Held, a: Id, b: Id, n: Id, i: nat)
    requires Joinable(w, far, a, b) && Fits(w, t) && Port(w, n, i) && IsExact(own, w, far, t, n, i)
    requires a !in far[n][i] && b !in far[n][i]
    requires a != b && Fits(Join(w, a, b), u) && n in u && i < |u[n]| && u[n][i] == t[n][i]
    ensures var w', far' := Join(w, a, b), JoinFar(far, a, b);
            Forest(w', far') && Port(w', n, i) && IsExact(own, w', far', u, n, i)
  {
    JoinIsForest(w, far, a, b);
    OldPort(w, far, a, b, n, i);
    var w': Wiring, far': Sides := Join(w, a, b), JoinFar(far, a, b);
    forall x | x in far[n][i] && x in own ensures Exact(own, w, far, n, i)[x] == Exact(own, w', far', n, i)[x] {
      DistStays(w, far, a, b, n, i, x);
    }
    assert Exact(own, w, far, n, i) == Exact(own, w', far', n, i);
  }

  // Entry exchange does not disturb exact tables

  lemma {:induction false} NotesKeepExact(own: set<Id>, w: Wiring, far: Sides, t: Held, notes: seq<Note>, n: Id, i: nat)
    requires Forest(w, far) && Fits(w, t) && NotesOk(own, w, far, notes)
    requires Port(w, n, i) && IsExact(own, w, far, t, n, i)
    ensures IsExact(own, w, far, AddNotes(w, t, notes), n, i)
    decreases notes
  {
    if notes != [] {
      var Note(m, j, author) := notes[0];
      assert notes[0] in notes;
      var table := t[m][j];
      var noted := if author in table then t else t[m := t[m][j := table[author := 0]]];
      NotesKeepExact(own, w, far, noted, notes[1..], n, i);
    }
  }

  lemma NotesKeepSide(own: set<Id>, w: Wiring, far: Sides, t: Held, notes: seq<Note>, side: set<Id>)
    requires Forest(w, far) && Fits(w, t) && NotesOk(own, w, far, notes) && SideExact(own, w, far, t, side)
    ensures SideExact(own, w, far, AddNotes(w, t, notes), side)
  {
    forall k, j: nat | k in side && Port(w, k, j) ensures IsExact(own, w, far, AddNotes(w, t, notes), k, j) {
      NotesKeepExact(own, w, far, t, notes, k, j);
    }
  }

  lemma NotesKeepForward(own: set<Id>, w: Wiring, far: Sides, t: Held, notes: seq<Note>, side: set<Id>, root: Id)
    requires Forest(w, far) && Fits(w, t) && NotesOk(own, w, far, notes) && ForwardExact(own, w, far, t, side, root)
    ensures ForwardExact(own, w, far, AddNotes(w, t, notes), side, root)
  {
    forall k, j: nat | k in side && Port(w, k, j)
      ensures j < |far[k]| && (root !in far[k][j] ==> IsExact(own, w, far, AddNotes(w, t, notes), k, j))
    {
      if root !in far[k][j] {
        NotesKeepExact(own, w, far, t, notes, k, j);
      }
    }
  }

  // Which tables are still right at each stage

  /** The joined graph after the slots were added, with the tables so far. */
  ghost predicate Joined(own: set<Id>, w: Wiring, far: Sides, t: Held, a: Id, b: Id, u: Held) {
    Linkable(w, far, t, a, b) && AllExact(own, w, far, t) && Fits(Join(w, a, b), u)
  }

  /** At the brokers of `side` the old tables are still in place. */
  ghost predicate Kept(t: Held, u: Held, side: set<Id>) {
    forall k | k in side && k in t :: k in u && t[k] <= u[k]
  }

  /** A table not touched since before, on a port that leads to neither end, is right. */
  lemma UntouchedIsExact(own: set<Id>, w: Wiring, far: Sides, t: Held, a: Id, b: Id, u: Held, n: Id, i: nat)
    requires Joined(own, w, far, t, a, b, u) && n in w && i < |w[n]| && w[n][i].Link?
    requires i < |far[n]| && a !in far[n][i] && b !in far[n][i]
    requires n in t && n in u && i < |t[n]| && i < |u[n]| && u[n][i] == t[n][i]
    ensures Port(Join(w, a, b), n, i) && IsExact(own, Join(w, a, b), JoinFar(far, a, b), u, n, i)
  {
    assert Port(w, n, i) && IsExact(own, w, far, t, n, i);
    ExactStays(own, w, far, t, u, a, b, n, i);
  }

  /** In one end's tree, the untouched tables for ports that do not lead to the other end are right. */
  lemma TreeForward(own: set<Id>, w: Wiring, far: Sides, t: Held, a: Id, b: Id, u: Held, end: Id, root: Id)
    requires Joined(own, w, far, t, a, b, u) && ((end == a && root == b) || (end == b && root == a))
    requires Kept(t, u, Tree(far, end))
    ensures ForwardExact(own, Join(w, a, b), JoinFar(far, a, b), u, Tree(far, end), root)
  {
    var w': Wiring, far': Sides := Join(w, a, b), JoinFar(far, a, b);
    EndsDiffer(w, far, a, b);
    NewPort(w, far, a, b);
    forall k, j: nat | k in Tree(far, end) && Port(w', k, j)
      ensures j < |far'[k]| && (root !in far'[k][j] ==> IsExact(own, w', far', u, k, j))
    {
      assert NodeOk(w', far', k);
      if j < |w[k]| {
        OldPort(w, far, a, b, k, j);
        if root !in far'[k][j] {
          assert u[k][j] == t[k][j] by { TreesPartition(w, far, end, k); }
          UntouchedIsExact(own, w, far, t, a, b, u, k, j);
        }
      } else {
        assert root in Tree(far, root);
      }
    }
  }

  /** Below `a` in its own tree, the untouched tables for ports that do not lead back to it are right. */
  lemma InnerForward(own: set<Id>, w: Wiring, far: Sides, t: Held, a: Id, b: Id, u: Held)
    requires Joined(own, w, far, t, a, b, u)
    requires Kept(t, u, Tree(far, a) - {a})
    ensures ForwardExact(own, Join(w, a, b), JoinFar(far, a, b), u, Tree(far, a) - {a}, a)
  {
    var w': Wiring, far': Sides := Join(w, a, b), JoinFar(far, a, b);
    EndsDiffer(w, far, a, b);
    NewPort(w, far, a, b);
    forall k, j: nat | k in Tree(far, a) - {a} && Port(w', k, j)
      ensures j < |far'[k]| && (a !in far'[k][j] ==> IsExact(own, w', far', u, k, j))
    {
      assert NodeOk(w', far', k);
      TreesPartition(w, far, a, k);
      assert k != b;
      OldPort(w, far, a, b, k, j);
      GrowsByStrangers(w, far, a, b, k, j);
      if a !in far'[k][j] {
        UntouchedIsExact(own, w, far, t, a, b, u, k, j);
      }
    }
  }

  /** Brokers of other trees are not concerned. */
  lemma OthersExact(own: set<Id>, w: Wiring, far: Sides, t: Held, a: Id, b: Id, u: Held, n: Id, i: nat)
    requires Joined(own, w, far, t, a, b, u) && Port(Join(w, a, b), n, i)
    requires n !in Tree(far, a) && n !in Tree(far, b) && n in t && n in u && u[n] == t[n]
    ensures IsExact(own, Join(w, a, b), JoinFar(far, a, b), u, n, i)
  {
    assert n != a && n != b;
    OldPort(w, far, a, b, n, i);
    GrowsByStrangers(w, far, a, b, n, i);
    assert n in Tree(far, n);
    UntouchedIsExact(own, w, far, t, a, b, u, n, i);
  }

  lemma OwnTablesAreExact(own: set<Id>, w: Wiring, far: Sides, t: Held, a: Id, b: Id, start: Held)
    requires Joined(own, w, far, t, a, b, start) && start == AddSlots(t, a, b)
    ensures forall j: nat | Port(Join(w, a, b), a, j) && j != |w[a]| ::
              IsExact(own, Join(w, a, b), JoinFar(far, a, b), start, a, j)
  {
    NewPort(w, far, a, b);
    EndsDiffer(w, far, a, b);
    assert b in Tree(far, b);
    forall j: nat | Port(Join(w, a, b), a, j) && j != |w[a]|
      ensures IsExact(own, Join(w, a, b), JoinFar(far, a, b), start, a, j)
    {
      OldPort(w, far, a, b, a, j);
      OldSlotIsOk(w, far, a, b, a, j);
      UntouchedIsExact(own, w, far, t, a, b, start, a, j);
    }
  }

  /** What `a` offers `b` is right. */
  lemma OfferToOther(own: set<Id>, w: Wiring, far: Sides, t: Held, a: Id, b: Id, start: Held)
    requires Joined(own, w, far, t, a, b, start) && start == AddSlots(t, a, b)
    ensures var w', far' := Join(w, a, b), JoinFar(far, a, b);
            && Port(w', b, |w[b]|) && |w[b]| < |far'[b]|
            && Provides(own, w', start, a, |w[a]|) == Exact(own, w', far', b, |w[b]|)
  {
    NewPort(w, far, a, b);
    OwnTablesAreExact(own, w, far, t, a, b, start);
    OfferIsExact(own, Join(w, a, b), JoinFar(far, a, b), start, a, |w[a]|);
  }

  lemma SpreadsOver(own: set<Id>, w: Wiring, far: Sides, t: Held, m: Id, s: nat, table: Table, side: set<Id>, r: Held)
    requires Forest(w, far) && Fits(w, t) && Port(w, m, s) && s < |far[m]|
    requires table == Exact(own, w, far, m, s) && r == Refresh(own, w, far, t, m, s, table)
    requires side == Behind(far, m, s) && ForwardExact(own, w, far, t, side, w[m][s].peer)
    ensures SideExact(own, w, far, r, side) && SameOutside(t, r, side)
  {
    RefreshSpreads(own, w, far, t, m, s, table);
  }

  lemma SlotsAreKept(t: Held, a: Id, b: Id, side: set<Id>)
    requires a in t && b in t
    ensures Kept(t, AddSlots(t, a, b), side)
  {}

  lemma OtherTreeIsForward(own: set<Id>, w: Wiring, far: Sides, t: Held, a: Id, b: Id, start: Held)
    requires Joined(own, w, far, t, a, b, start) && start == AddSlots(t, a, b)
    ensures var w', far' := Join(w, a, b), JoinFar(far, a, b);
            && Port(w', b, |w[b]|) && |w[b]| < |far'[b]| && w'[b][|w[b]|].peer == a
            && Tree(far, b) == Behind(far', b, |w[b]|)
            && ForwardExact(own, w', far', start, Tree(far, b), a)
  {
    NewPort(w, far, a, b);
    NewSideOk(w, far, a, b);
    SlotsAreKept(t, a, b, Tree(far, b));
    TreeForward(own, w, far, t, a, b, start, b, a);
  }

  lemma OtherTreeIsExact(own: set<Id>, w: Wiring, far: Sides, t: Held, a: Id, b: Id, start: Held, table: Table, theirs: Held)
    requires Joined(own, w, far, t, a, b, start) && start == AddSlots(t, a, b)
    requires var w', far' := Join(w, a, b), JoinFar(far, a, b);
             && Port(w', b, |w[b]|) && |w[b]| < |far'[b]| && table == Exact(own, w', far', b, |w[b]|)
             && theirs == Refresh(own, w', far', start, b, |w[b]|, table)
    ensures SideExact(own, Join(w, a, b), JoinFar(far, a, b), theirs, Tree(far, b))
    ensures SameOutside(start, theirs, Tree(far, b))
  {
    OtherTreeIsForward(own, w, far, t, a, b, start);
    SpreadsOver(own, Join(w, a, b), JoinFar(far, a, b), start, b, |w[b]|, table, Tree(far, b), theirs);
  }

  /** So is what `b`'s tree makes of it. */
  lemma TheirsIsExact(own: set<Id>, w: Wiring, far: Sides, t: Held, a: Id, b: Id, start: Held, theirs: Held)
    requires Joined(own, w, far, t, a, b, start) && start == AddSlots(t, a, b)
    requires theirs == Theirs(own, w, far, t, a, b)
    ensures SideExact(own, Join(w, a, b), JoinFar(far, a, b), theirs, Tree(far, b))
    ensures SameOutside(start, theirs, Tree(far, b))
  {
    OfferToOther(own, w, far, t, a, b, start);
    OtherTreeIsExact(own, w, far, t, a, b, start, Provides(own, Join(w, a, b), start, a, |w[a]|), theirs);
  }

  /** Once the answer is in, everything is right but for what leads back to `a` in its own tree. */
  lemma AnsweredIsSettled(own: set<Id>, w: Wiring, far: Sides, t: Held, a: Id, b: Id)
    requires Linkable(w, far, t, a, b) && AllExact(own, w, far, t)
    ensures var w', far', u := Join(w, a, b), JoinFar(far, a, b), Answered(own, w, far, t, a, b);
            && SideExact(own, w', far', u, w.Keys - (Tree(far, a) - {a}))
            && ForwardExact(own, w', far', u, Tree(far, a) - {a}, a)
  {
    var start, theirs := AddSlots(t, a, b), Theirs(own, w, far, t, a, b);
    TheirsIsExact(own, w, far, t, a, b, start, theirs);
    AnswerSettles(own, w, far, t, a, b, start, theirs);
  }

  lemma AnswerSettles(own: set<Id>, w: Wiring, far: Sides, t: Held, a: Id, b: Id, start: Held, theirs: Held)
    requires Joined(own, w, far, t, a, b, theirs)
    requires SideExact(own, Join(w, a, b), JoinFar(far, a, b), theirs, Tree(far, b))
    requires start == AddSlots(t, a, b) && SameOutside(start, theirs, Tree(far, b))
    ensures var w', far', answered := Join(w, a, b), JoinFar(far, a, b), Filled(own, w, a, b, theirs);
            && SideExact(own, w', far', answered, w.Keys - (Tree(far, a) - {a}))
            && ForwardExact(own, w', far', answered, Tree(far, a) - {a}, a)
  {
    var w': Wiring, far': Sides, q, answered := Join(w, a, b), JoinFar(far, a, b), |w[b]|, Filled(own, w, a, b, theirs);
    NewPort(w, far, a, b);
    EndsDiffer(w, far, a, b);
    assert b in Tree(far, b) && a in Tree(far, a);
    OfferIsExact(own, w', far', theirs, b, q);
    InnerForward(own, w, far, t, a, b, answered);
    forall k, j: nat | k in w.Keys - (Tree(far, a) - {a}) && Port(w', k, j) ensures IsExact(own, w', far', answered, k, j) {
      if k == a {
        OwnTablesSettle(own, w, far, t, a, b, answered, j);
      } else if k in Tree(far, b) {
        assert IsExact(own, w', far', theirs, k, j);
      } else {
        OthersExact(own, w, far, t, a, b, answered, k, j);
      }
    }
  }

  lemma OwnTablesSettle(own: set<Id>, w: Wiring, far: Sides, t: Held, a: Id, b: Id, u: Held, j: nat)
    requires Joined(own, w, far, t, a, b, u) && Port(Join(w, a, b), a, j)
    requires |u[a]| == |w[a]| + 1 && |t[a]| == |w[a]| && u[a][..|w[a]|] == t[a]
    requires Port(Join(w, a, b), a, |w[a]|) && IsExact(own, Join(w, a, b), JoinFar(far, a, b), u, a, |w[a]|)
    ensures IsExact(own, Join(w, a, b), JoinFar(far, a, b), u, a, j)
  {
    if j < |w[a]| {
      OldPort(w, far, a, b, a, j);
      OldSlotIsOk(w, far, a, b, a, j);
      EndsDiffer(w, far, a, b);
      assert b in Tree(far, b);
      assert u[a][j] == u[a][..|w[a]|][j];
      UntouchedIsExact(own, w, far, t, a, b, u, a, j);
    }
  }

  /** Connecting two trees whose tables are exact leaves every table of the joined tree exact, listing
      precisely the journals on the far side with their hop counts, whatever entries were exchanged. */
  lemma ConnectIsExact(own: set<Id>, w: Wiring, far: Sides, t: Held, a: Id, b: Id, notes: seq<Note>)
    requires Linkable(w, far, t, a, b) && AllExact(own, w, far, t)
    requires NotesOk(own, Join(w, a, b), JoinFar(far, a, b), notes)
    ensures AllExact(own, Join(w, a, b), JoinFar(far, a, b), Connect(own, w, far, t, a, b, notes))
  {
    AnsweredIsSettled(own, w, far, t, a, b);
    ExchangeAndRefresh(own, w, far, t, a, b, notes, Answered(own, w, far, t, a, b));
  }

  lemma ExchangeAndRefresh(own: set<Id>, w: Wiring, far: Sides, t: Held, a: Id, b: Id, notes: seq<Note>, answered: Held)
    requires Joined(own, w, far, t, a, b, answered) && NotesOk(own, Join(w, a, b), JoinFar(far, a, b), notes)
    requires SideExact(own, Join(w, a, b), JoinFar(far, a, b), answered, w.Keys - (Tree(far, a) - {a}))
    requires ForwardExact(own, Join(w, a, b), JoinFar(far, a, b), answered, Tree(far, a) - {a}, a)
    ensures var w', far' := Join(w, a, b), JoinFar(far, a, b);
            AllExact(own, w', far', RefreshOthers(own, w', far', AddNotes(w', answered, notes), a, |w[a]|, 1))
  {
    var w': Wiring, far': Sides := Join(w, a, b), JoinFar(far, a, b);
    NewPort(w, far, a, b);
    NewSideOk(w, far, a, b);
    var inner, settled := Tree(far, a) - {a}, w.Keys - (Tree(far, a) - {a});
    NotesKeepSide(own, w', far', answered, notes, settled);
    NotesKeepForward(own, w', far', answered, notes, inner, a);
    LastRefresh(own, w', far', AddNotes(w', answered, notes), a, |w[a]|, inner, settled);
  }

  lemma LastRefresh(own: set<Id>, w: Wiring, far: Sides, noted: Held, a: Id, p: nat, inner: set<Id>, settled: set<Id>)
    requires Forest(w, far) && Fits(w, noted) && a in w && |w[a]| > 1
    requires Behind(far, a, p) == {a} + inner && a !in inner && settled == w.Keys - inner
    requires SideExact(own, w, far, noted, settled) && ForwardExact(own, w, far, noted, inner, a)
    ensures AllExact(own, w, far, RefreshOthers(own, w, far, noted, a, p, 1))
  {
    RestIsBehind(w, far, a, p);
    assert Rest(far, a, p, 1) == inner;
    var r := RefreshOthers(own, w, far, noted, a, p, 1);
    OthersSpread(own, w, far, noted, r, a, p, 1);
    forall n, i: nat | Port(w, n, i) ensures IsExact(own, w, far, r, n, i) {
      if n in settled {
        assert IsExact(own, w, far, noted, n, i);
      }
    }
  }

  // Networks grown by connecting

  datatype Joining = Joining(a: Id, b: Id, notes: seq<Note>)

  datatype Routes = Routes(w: Wiring, far: Sides, t: Held)

  /** Brokers that have no connection yet. */
  ghost predicate Isolated(g: Routes) {
    && g.w.Keys == g.far.Keys == g.t.Keys
    && forall n | n in g.w :: g.w[n] == [NoLink] && g.far[n] == [{}] && g.t[n] == [map[]]
  }

  ghost predicate Legal(own: set<Id>, g: Routes, c: Joining) {
    && Linkable(g.w, g.far, g.t, c.a, c.b)
    && NotesOk(own, Join(g.w, c.a, c.b), JoinFar(g.far, c.a, c.b), c.notes)
  }

  ghost function AfterJoin(own: set<Id>, g: Routes, c: Joining): Routes
    requires Legal(own, g, c)
  {
    Routes(Join(g.w, c.a, c.b), JoinFar(g.far, c.a, c.b), Connect(own, g.w, g.far, g.t, c.a, c.b, c.notes))
  }

  /** Each state comes from the one before by connecting brokers of different trees. */
  ghost predicate IsGrowth(own: set<Id>, states: seq<Routes>, joins: seq<Joining>) {
    && |states| == |joins| + 1 && Isolated(states[0])
    && forall i | 0 <= i < |joins| :: GrowthAt(own, states, joins, i)
  }

  ghost predicate GrowthAt(own: set<Id>, states: seq<Routes>, joins: seq<Joining>, i: nat)
    requires |states| == |joins| + 1 && i < |joins|
  {
    Legal(own, states[i], joins[i]) && states[i + 1] == AfterJoin(own, states[i], joins[i])
  }

  ghost predicate Settled(own: set<Id>, g: Routes) {
    Forest(g.w, g.far) && Fits(g.w, g.t) && AllExact(own, g.w, g.far, g.t)
  }

  lemma IsolatedIsSettled(own: set<Id>, g: Routes)
    requires Isolated(g)
    ensures Settled(own, g)
  {
    forall n | n in g.w ensures NodeOk(g.w, g.far, n) {}
  }

  lemma JoinKeepsSettled(own: set<Id>, g: Routes, c: Joining, next: Routes)
    requires Settled(own, g) && Legal(own, g, c) && next == AfterJoin(own, g, c)
    ensures Settled(own, next)
  {
    ConnectIsExact(own, g.w, g.far, g.t, c.a, c.b, c.notes);
  }

  lemma GrowthStep(own: set<Id>, states: seq<Routes>, joins: seq<Joining>, i: nat)
    requires IsGrowth(own, states, joins) && i < |joins| && Settled(own, states[i])
    ensures Settled(own, states[i + 1])
  {
    assert GrowthAt(own, states, joins, i);
    JoinKeepsSettled(own, states[i], joins[i], states[i + 1]);
  }

  /** However a forest is grown by connecting brokers one link at a time, its tables are exact. */
  lemma {:induction false} GrownTablesAreExact(own: set<Id>, states: seq<Routes>, joins: seq<Joining>, k: nat)
    requires IsGrowth(own, states, joins) && k < |states|
    ensures Settled(own, states[k])
    decreases k
  {
    if k == 0 {
      IsolatedIsSettled(own, states[0]);
    } else {
      GrownTablesAreExact(own, states, joins, k - 1);
      GrowthStep(own, states, joins, k - 1);
    }
  }
}
