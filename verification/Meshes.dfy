/** Whole lives of a network: in every state reached the tables are exact. */
module Meshes {
  import opened Clocks
  import opened Entries
  import opened Flooding
  import opened Forests
  import opened Tables
  import opened Refreshes
  import opened Joins
  import opened Connects
  import opened Hubs
  import opened Meetings
  import opened Relays

  datatype Mesh = Mesh(g: Routes, s: Nodes)

  /** Two brokers of different trees connect and each is sent a list; or a journal books data of its own. */
  datatype Act = Meet(a: Id, b: Id, fromB: seq<Entry>, fromA: seq<Entry>) | Book(at: Id, data: Data)

  /** Every saved entry is by a journal of the tree it is saved in. */
  ghost predicate Homed(own: set<Id>, far: Sides, s: Nodes)
    requires far.Keys == s.Keys
  {
    forall n, e {:trigger AtHome(own, far, n, e)} | n in s && s[n].Store? && e in s[n].r.saved :: AtHome(own, far, n, e)
  }

  ghost predicate AtHome(own: set<Id>, far: Sides, n: Id, e: Entry)
    requires n in far
  {
    e.data.id in own && e.data.id in Tree(far, n)
  }

  ghost predicate Upright(own: set<Id>, m: Mesh) {
    && Settled(own, m.g) && m.g.w.Keys == m.s.Keys && Owns(own, m.s)
    && Homed(own, m.g.far, m.s)
  }

  /** The list is drawn from what the journals of a tree store. */
  ghost predicate DrawnFrom(far: Sides, s: Nodes, b: Id, list: seq<Entry>)
    requires b in far
  {
    forall e | e in list :: exists n :: n in s && n in Tree(far, b) && s[n].Store? && e in s[n].r.saved
  }

  ghost predicate Possible(m: Mesh, act: Act) {
    match act
    case Meet(a, b, fromB, fromA) =>
      && Linkable(m.g.w, m.g.far, m.g.t, a, b)
      && DrawnFrom(m.g.far, m.s, b, fromB) && DrawnFrom(m.g.far, m.s, a, fromA)
    case Book(at, data) => at in m.s && m.s[at].Store? && data.id == at
  }

  lemma DrawnIsHome(own: set<Id>, w: Wiring, far: Sides, s: Nodes, b: Id, list: seq<Entry>)
    requires Forest(w, far) && far.Keys == s.Keys && Homed(own, far, s) && b in w && DrawnFrom(far, s, b, list)
    ensures forall e | e in list :: AtHome(own, far, b, e)
  {
    forall e | e in list ensures AtHome(own, far, b, e) {
      var n :| n in s && n in Tree(far, b) && s[n].Store? && e in s[n].r.saved;
      assert AtHome(own, far, n, e);
      TreesPartition(w, far, b, n);
    }
  }

  /** What an act leaves: connections, tables and stores. */
  ghost function After(own: set<Id>, m: Mesh, act: Act): Mesh
    requires Upright(own, m) && Possible(m, act)
  {
    var Routes(w, far, t) := m.g;
    match act
    case Meet(a, b, fromB, fromA) =>
      var w', far', p, q := Join(w, a, b), JoinFar(far, a, b), |w[a]|, |w[b]|;
      DrawnIsHome(own, w, far, m.s, b, fromB);
      DrawnIsHome(own, w, far, m.s, a, fromA);
      ExchangeNotesOk(own, w, far, t, a, b, m.s, fromB, fromA);
      Mesh(Routes(w', far', Connect(own, w, far, t, a, b, ExchangeNotes(w', far', m.s, a, p, b, q, fromB, fromA))),
           BatchInForest(w', far', BatchInForest(w', far', m.s, a, p, fromB), b, q, fromA))
    case Book(at, data) =>
      var e := StampAt(m.s, at, data);
      BookingNotesOk(own, w, far, m.s, at, e);
      Mesh(Routes(w, far, AddNotes(w, t, InsertNotes(w, far, m.s, at, 0, e))), AppendAt(w, far, m.s, at, data))
  }

  lemma BookingNotesOk(own: set<Id>, w: Wiring, far: Sides, s: Nodes, at: Id, e: Entry)
    requires Forest(w, far) && w.Keys == s.Keys && at in w && at in own && e.data.id == at
    ensures NotesOk(own, w, far, InsertNotes(w, far, s, at, 0, e))
  {
    InsertNotesOk(own, w, far, s, at, 0, e);
  }

  // Stores keep to their trees

  lemma InsertKeepsHomed(own: set<Id>, w: Wiring, far: Sides, s: Nodes, n: Id, source: nat, e: Entry)
    requires Forest(w, far) && w.Keys == s.Keys && n in w && source < |w[n]| && Owns(own, s) && Homed(own, far, s)
    requires AtHome(own, far, n, e)
    ensures Owns(own, InsertInForest(w, far, s, n, source, e)) && Homed(own, far, InsertInForest(w, far, s, n, source, e))
  {
    var r := InsertInForest(w, far, s, n, source, e);
    forall x | x in w ensures r[x].Store? == s[x].Store? {
      InsertTakesOpen(w, far, s, n, source, e, x);
    }
    forall x, y | x in r && r[x].Store? && y in r[x].r.saved ensures AtHome(own, far, x, y) {
      InsertTakesOpen(w, far, s, n, source, e, x);
      if y in s[x].r.saved {
        assert AtHome(own, far, x, y);
      } else {
        TreesPartition(w, far, n, x);
      }
    }
  }

  lemma {:induction false} BatchKeepsHomed(own: set<Id>, w: Wiring, far: Sides, s: Nodes, n: Id, source: nat, list: seq<Entry>)
    requires Forest(w, far) && w.Keys == s.Keys && n in w && source < |w[n]| && Owns(own, s) && Homed(own, far, s)
    requires forall e | e in list :: AtHome(own, far, n, e)
    ensures Owns(own, BatchInForest(w, far, s, n, source, list)) && Homed(own, far, BatchInForest(w, far, s, n, source, list))
    decreases list
  {
    if list != [] {
      assert list[0] in list;
      InsertKeepsHomed(own, w, far, s, n, source, list[0]);
      BatchKeepsHomed(own, w, far, InsertInForest(w, far, s, n, source, list[0]), n, source, list[1..]);
    }
  }

  lemma TreesGrow(w: Wiring, far: Sides, a: Id, b: Id, n: Id)
    requires Joinable(w, far, a, b) && a != b && n in w
    ensures Tree(far, n) <= Tree(JoinFar(far, a, b), n)
  {
    forall x | x in Tree(far, n) ensures x in Tree(JoinFar(far, a, b), n) {
      if x != n {
        var j := PortTo(far, n, x);
        PortToIsUnique(w, far, n, x, j);
        LinkFacts(w, far, n, j);
        OldPort(w, far, a, b, n, j);
        assert x in JoinFar(far, a, b)[n][j];
      }
    }
  }

  lemma JoinKeepsHomed(own: set<Id>, w: Wiring, far: Sides, a: Id, b: Id, s: Nodes)
    requires Joinable(w, far, a, b) && a != b && far.Keys == s.Keys && Homed(own, far, s)
    ensures Homed(own, JoinFar(far, a, b), s)
  {
    forall n, e | n in s && s[n].Store? && e in s[n].r.saved ensures AtHome(own, JoinFar(far, a, b), n, e) {
      assert AtHome(own, far, n, e);
      TreesGrow(w, far, a, b, n);
    }
  }

  /** Each end's list is by journals that are in its tree once the two are joined. */
  lemma DrawnIsHomeAfter(own: set<Id>, w: Wiring, far: Sides, s: Nodes, a: Id, b: Id, fromB: seq<Entry>, fromA: seq<Entry>)
    requires Joinable(w, far, a, b) && a != b && far.Keys == s.Keys && Homed(own, far, s)
    requires DrawnFrom(far, s, b, fromB) && DrawnFrom(far, s, a, fromA)
    ensures forall e | e in fromB :: AtHome(own, JoinFar(far, a, b), a, e)
    ensures forall e | e in fromA :: AtHome(own, JoinFar(far, a, b), b, e)
  {
    var w': Wiring, far': Sides := Join(w, a, b), JoinFar(far, a, b);
    DrawnIsHome(own, w, far, s, b, fromB);
    DrawnIsHome(own, w, far, s, a, fromA);
    JoinIsForest(w, far, a, b);
    NewPort(w, far, a, b);
    NeighboursShareTree(w', far', a, |w[a]|);
    TreesGrow(w, far, a, b, a);
    TreesGrow(w, far, a, b, b);
  }

  lemma MeetKeepsUpright(own: set<Id>, m: Mesh, a: Id, b: Id, fromB: seq<Entry>, fromA: seq<Entry>, next: Mesh)
    requires Upright(own, m) && Possible(m, Meet(a, b, fromB, fromA)) && next == After(own, m, Meet(a, b, fromB, fromA))
    ensures Upright(own, next)
  {
    var Routes(w, far, t) := m.g;
    var w': Wiring, far': Sides, p, q := Join(w, a, b), JoinFar(far, a, b), |w[a]|, |w[b]|;
    DrawnIsHome(own, w, far, m.s, b, fromB);
    DrawnIsHome(own, w, far, m.s, a, fromA);
    MeetingIsExact(own, w, far, t, a, b, m.s, fromB, fromA);
    MeetKeepsHomed(own, w, far, a, b, m.s, fromB, fromA);
  }

  lemma MeetKeepsHomed(own: set<Id>, w: Wiring, far: Sides, a: Id, b: Id, s: Nodes, fromB: seq<Entry>, fromA: seq<Entry>)
    requires Joinable(w, far, a, b) && a != b && far.Keys == s.Keys && Homed(own, far, s) && Owns(own, s)
    requires Forest(Join(w, a, b), JoinFar(far, a, b))
    requires DrawnFrom(far, s, b, fromB) && DrawnFrom(far, s, a, fromA)
    ensures var w', far' := Join(w, a, b), JoinFar(far, a, b);
            var r := BatchInForest(w', far', BatchInForest(w', far', s, a, |w[a]|, fromB), b, |w[b]|, fromA);
            Owns(own, r) && Homed(own, far', r)
  {
    var w': Wiring, far': Sides := Join(w, a, b), JoinFar(far, a, b);
    NewPort(w, far, a, b);
    JoinKeepsHomed(own, w, far, a, b, s);
    DrawnIsHomeAfter(own, w, far, s, a, b, fromB, fromA);
    BatchKeepsHomed(own, w', far', s, a, |w[a]|, fromB);
    BatchKeepsHomed(own, w', far', BatchInForest(w', far', s, a, |w[a]|, fromB), b, |w[b]|, fromA);
  }

  lemma BookKeepsUpright(own: set<Id>, m: Mesh, at: Id, data: Data, next: Mesh)
    requires Upright(own, m) && Possible(m, Book(at, data)) && next == After(own, m, Book(at, data))
    ensures Upright(own, next)
  {
    var Routes(w, far, t) := m.g;
    var e := StampAt(m.s, at, data);
    BookingNotesOk(own, w, far, m.s, at, e);
    var notes := InsertNotes(w, far, m.s, at, 0, e);
    forall n, i: nat | Port(w, n, i) ensures IsExact(own, w, far, AddNotes(w, t, notes), n, i) {
      NotesKeepExact(own, w, far, t, notes, n, i);
    }
    assert at in Tree(far, at);
    InsertKeepsHomed(own, w, far, m.s, at, 0, e);
  }

  // Whole runs

  /** Brokers without connections, journals without entries. */
  ghost predicate Fresh(own: set<Id>, m: Mesh) {
    && Isolated(m.g) && m.g.w.Keys == m.s.Keys && Owns(own, m.s)
    && forall n | n in m.s && m.s[n].Store? :: m.s[n].r.saved == []
  }

  ghost predicate IsLife(own: set<Id>, states: seq<Mesh>, acts: seq<Act>) {
    && |states| == |acts| + 1 && Fresh(own, states[0])
    && forall i | 0 <= i < |acts| :: ActAt(own, states, acts, i)
  }

  /** What an act leaves is defined where the state is upright, which `ReachedTablesAreExact` shows it always is. */
  ghost predicate ActAt(own: set<Id>, states: seq<Mesh>, acts: seq<Act>, i: nat)
    requires |states| == |acts| + 1 && i < |acts|
  {
    Upright(own, states[i]) ==> Possible(states[i], acts[i]) && states[i + 1] == After(own, states[i], acts[i])
  }

  lemma ActKeepsUpright(own: set<Id>, m: Mesh, act: Act, next: Mesh)
    requires Upright(own, m) && Possible(m, act) && next == After(own, m, act)
    ensures Upright(own, next)
  {
    match act
    case Meet(a, b, fromB, fromA) => MeetKeepsUpright(own, m, a, b, fromB, fromA, next);
    case Book(at, data) => BookKeepsUpright(own, m, at, data, next);
  }

  lemma LifeStep(own: set<Id>, states: seq<Mesh>, acts: seq<Act>, i: nat)
    requires IsLife(own, states, acts) && i < |acts| && Upright(own, states[i])
    ensures Upright(own, states[i + 1])
  {
    assert ActAt(own, states, acts, i);
    ActKeepsUpright(own, states[i], acts[i], states[i + 1]);
  }

  /** In every state reached from fresh brokers, by connecting tree to tree, exchanging whatever the trees store,
      and booking entries anywhere in between, the brokers form a forest and every table is exact. */
  lemma {:induction false} ReachedTablesAreExact(own: set<Id>, states: seq<Mesh>, acts: seq<Act>, k: nat)
    requires IsLife(own, states, acts) && k < |states|
    ensures Upright(own, states[k])
    ensures Settled(own, states[k].g)
    decreases k
  {
    if k == 0 {
      IsolatedIsSettled(own, states[0].g);
    } else {
      ReachedTablesAreExact(own, states, acts, k - 1);
      LifeStep(own, states, acts, k - 1);
    }
  }
}
