/** What brokers of a forest answer when asked for entries, and how the notes of floods add up insert by insert: the
    tables and stores that connecting, inserting and relaying leave, in the steps in which the objects take them. */
module Exchanges {
  import opened Clocks
  import opened Entries
  import opened Flooding
  import opened Listings
  import opened Deltas
  import opened Forests
  import opened Tables
  import opened Refreshes
  import opened Joins
  import opened Connects
  import opened Hubs
  import opened Meetings
  import opened Meshes
  import opened Relays
  import opened Runs

  /** A journal answers with its own delta; a hub passes the question to the first other port that lists journals. */
  ghost function QueryAt(w: Wiring, far: Sides, t: Held, s: Nodes, n: Id, from: Clock, sender: nat): seq<Entry>
    requires Forest(w, far) && Fits(w, t) && w.Keys == s.Keys && n in w
    decreases Behind(far, n, sender), |w[n]| + 1
  {
    match s[n]
    case Store(r) => Query(Listing(r), from)
    case Hub(_) => QueryPorts(w, far, t, s, n, from, sender, 1)
  }

  ghost function QueryPorts(w: Wiring, far: Sides, t: Held, s: Nodes, n: Id, from: Clock, sender: nat, i: nat): seq<Entry>
    requires Forest(w, far) && Fits(w, t) && w.Keys == s.Keys && n in w
    decreases Behind(far, n, sender), if i <= |w[n]| then |w[n]| - i else 0
  {
    if i >= |w[n]| then []
    else if i == sender || t[n][i] == map[] || w[n][i].NoLink? then QueryPorts(w, far, t, s, n, from, sender, i + 1)
    else
      LinkFacts(w, far, n, i);
      BehindNarrows(w, far, n, sender, i);
      QueryAt(w, far, t, s, w[n][i].peer, from, w[n][i].far)
  }

  /** An answer is drawn from the stores on the side asked. */
  lemma {:induction false} QueryIsDrawn(w: Wiring, far: Sides, t: Held, s: Nodes, n: Id, from: Clock, sender: nat, e: Entry)
    requires Forest(w, far) && Fits(w, t) && w.Keys == s.Keys && n in w
    requires e in QueryAt(w, far, t, s, n, from, sender)
    ensures exists x :: x in s && x in Behind(far, n, sender) && s[x].Store? && e in s[x].r.saved
    decreases Behind(far, n, sender), |w[n]| + 1
  {
    if s[n].Store? {
      QueryMembers(Listing(s[n].r), from);
      ListingIsSaved(s[n].r);
      assert n in Behind(far, n, sender);
    } else {
      PortsAreDrawn(w, far, t, s, n, from, sender, 1, e);
    }
  }

  lemma {:induction false} PortsAreDrawn(w: Wiring, far: Sides, t: Held, s: Nodes, n: Id, from: Clock, sender: nat, i: nat, e: Entry)
    requires Forest(w, far) && Fits(w, t) && w.Keys == s.Keys && n in w
    requires e in QueryPorts(w, far, t, s, n, from, sender, i)
    ensures exists x :: x in s && x in Behind(far, n, sender) && s[x].Store? && e in s[x].r.saved
    decreases Behind(far, n, sender), if i <= |w[n]| then |w[n]| - i else 0
  {
    if i == sender || t[n][i] == map[] || w[n][i].NoLink? {
      PortsAreDrawn(w, far, t, s, n, from, sender, i + 1, e);
    } else {
      LinkFacts(w, far, n, i);
      BehindNarrows(w, far, n, sender, i);
      QueryIsDrawn(w, far, t, s, w[n][i].peer, from, w[n][i].far, e);
    }
  }

  // Notes

  ghost predicate ArePorts(w: Wiring, notes: seq<Note>) { forall x | x in notes :: Port(w, x.at, x.port) }

  lemma {:induction false} AddNotesConcat(w: Wiring, t: Held, l1: seq<Note>, l2: seq<Note>)
    requires Fits(w, t) && ArePorts(w, l1) && ArePorts(w, l2)
    ensures ArePorts(w, l1 + l2) && AddNotes(w, t, l1 + l2) == AddNotes(w, AddNotes(w, t, l1), l2)
    decreases l1
  {
    assert forall x | x in l1 + l2 :: x in l1 || x in l2;
    if l1 == [] {
      assert l1 + l2 == l2;
    } else {
      var Note(n, i, author) := l1[0];
      assert l1[0] in l1;
      var table := t[n][i];
      var noted := if author in table then t else t[n := t[n][i := table[author := 0]]];
      assert (l1 + l2)[0] == l1[0] && (l1 + l2)[1..] == l1[1..] + l2;
      AddNotesConcat(w, noted, l1[1..], l2);
    }
  }

  lemma {:induction false} InsertNotesArePorts(w: Wiring, far: Sides, s: Nodes, n: Id, source: nat, e: Entry)
    requires Forest(w, far) && w.Keys == s.Keys && n in w
    ensures ArePorts(w, InsertNotes(w, far, s, n, source, e))
    decreases Behind(far, n, source), |w[n]| + 1
  {
    if Opens(s[n], e) {
      ForwardNotesArePorts(w, far, s[n := Passed(s[n], e)], n, source, e, 0);
    }
  }

  lemma {:induction false} ForwardNotesArePorts(w: Wiring, far: Sides, s: Nodes, n: Id, source: nat, e: Entry, i: nat)
    requires Forest(w, far) && w.Keys == s.Keys && n in w && i <= |w[n]|
    ensures ArePorts(w, ForwardNotes(w, far, s, n, source, e, i))
    decreases Behind(far, n, source), |w[n]| - i
  {
    if i < |w[n]| {
      if i == source || w[n][i].NoLink? {
        ForwardNotesArePorts(w, far, s, n, source, e, i + 1);
      } else {
        LinkFacts(w, far, n, i);
        BehindNarrows(w, far, n, source, i);
        var Link(m, k) := w[n][i];
        InsertNotesArePorts(w, far, s, m, k, e);
        ForwardNotesArePorts(w, far, InsertInForest(w, far, s, m, k, e), n, source, e, i + 1);
      }
    }
  }

  // The state of a network after a flood: tables and stores

  /** The tables after a flood from `n`. */
  ghost function NotedBy(w: Wiring, far: Sides, t: Held, s: Nodes, n: Id, source: nat, e: Entry): (r: Held)
    requires Forest(w, far) && Fits(w, t) && w.Keys == s.Keys && n in w
    ensures Fits(w, r)
  {
    InsertNotesArePorts(w, far, s, n, source, e);
    AddNotes(w, t, InsertNotes(w, far, s, n, source, e))
  }

  ghost function NotedFrom(w: Wiring, far: Sides, t: Held, s: Nodes, n: Id, source: nat, e: Entry, i: nat): (r: Held)
    requires Forest(w, far) && Fits(w, t) && w.Keys == s.Keys && n in w && i <= |w[n]|
    ensures Fits(w, r)
  {
    ForwardNotesArePorts(w, far, s, n, source, e, i);
    AddNotes(w, t, ForwardNotes(w, far, s, n, source, e, i))
  }

  /** What the broker itself notes: the slot of a local insert has no table that is ever read. */
  ghost function OwnNote(w: Wiring, n: Id, source: nat, e: Entry): seq<Note> {
    if Port(w, n, source) then [Note(n, source, e.data.id)] else []
  }

  ghost function NotedHere(w: Wiring, t: Held, n: Id, source: nat, e: Entry): (r: Held)
    requires Fits(w, t)
    ensures Fits(w, r)
  {
    AddNotes(w, t, OwnNote(w, n, source, e))
  }

  /** A broker that lets the entry pass notes the author first, and then the rest of the flood is noted. */
  lemma NotedAtOnce(w: Wiring, far: Sides, t: Held, s: Nodes, n: Id, source: nat, e: Entry)
    requires Forest(w, far) && Fits(w, t) && w.Keys == s.Keys && n in w && Opens(s[n], e)
    ensures var u := s[n := Passed(s[n], e)];
            && NotedBy(w, far, t, s, n, source, e) ==
               NotedFrom(w, far, NotedHere(w, t, n, source, e), u, n, source, e, 0)
            && InsertInForest(w, far, s, n, source, e) == ForwardInForest(w, far, u, n, source, e, 0)
  {
    var own := OwnNote(w, n, source, e);
    var u := s[n := Passed(s[n], e)];
    ForwardNotesArePorts(w, far, u, n, source, e, 0);
    AddNotesConcat(w, t, own, ForwardNotes(w, far, u, n, source, e, 0));
  }

  /** One turn of the forwarding loop. */
  lemma NotedTurn(w: Wiring, far: Sides, t: Held, s: Nodes, n: Id, source: nat, e: Entry, i: nat)
    requires Forest(w, far) && Fits(w, t) && w.Keys == s.Keys && n in w && i < |w[n]|
    ensures i == source || w[n][i].NoLink? ==>
              && NotedFrom(w, far, t, s, n, source, e, i) == NotedFrom(w, far, t, s, n, source, e, i + 1)
              && ForwardInForest(w, far, s, n, source, e, i) == ForwardInForest(w, far, s, n, source, e, i + 1)
    ensures i != source && w[n][i].Link? ==>
              var Link(m, k) := w[n][i];
              && Port(w, m, k) && Behind(far, m, k) < Behind(far, n, source)
              && var u, next := NotedBy(w, far, t, s, m, k, e), InsertInForest(w, far, s, m, k, e);
              && NotedFrom(w, far, t, s, n, source, e, i) == NotedFrom(w, far, u, next, n, source, e, i + 1)
              && ForwardInForest(w, far, s, n, source, e, i) == ForwardInForest(w, far, next, n, source, e, i + 1)
  {
    if i != source && w[n][i].Link? {
      LinkFacts(w, far, n, i);
      BehindNarrows(w, far, n, source, i);
      var Link(m, k) := w[n][i];
      var next := InsertInForest(w, far, s, m, k, e);
      InsertNotesArePorts(w, far, s, m, k, e);
      ForwardNotesArePorts(w, far, next, n, source, e, i + 1);
      AddNotesConcat(w, t, InsertNotes(w, far, s, m, k, e), ForwardNotes(w, far, next, n, source, e, i + 1));
    }
  }

  /** From tables `t` and stores `s`, the loop from port `i` on leads to `tables` and `nodes`. */
  ghost predicate Due(w: Wiring, far: Sides, t: Held, s: Nodes, n: Id, source: nat, e: Entry, i: nat, tables: Held, nodes: Nodes)
    requires Forest(w, far) && Fits(w, t) && w.Keys == s.Keys && n in w && i <= |w[n]|
    decreases |w[n]| - i
  {
    if i == |w[n]| then tables == t && nodes == s
    else if i == source || w[n][i].NoLink? then Due(w, far, t, s, n, source, e, i + 1, tables, nodes)
    else
      LinkFacts(w, far, n, i);
      var Link(m, k) := w[n][i];
      Due(w, far, NotedBy(w, far, t, s, m, k, e), InsertInForest(w, far, s, m, k, e), n, source, e, i + 1, tables, nodes)
  }

  lemma {:induction false} LoopIsDue(w: Wiring, far: Sides, t: Held, s: Nodes, n: Id, source: nat, e: Entry, i: nat,
                                     tables: Held, nodes: Nodes)
    requires Forest(w, far) && Fits(w, t) && w.Keys == s.Keys && n in w && i <= |w[n]|
    requires tables == NotedFrom(w, far, t, s, n, source, e, i) && nodes == ForwardInForest(w, far, s, n, source, e, i)
    ensures Due(w, far, t, s, n, source, e, i, tables, nodes)
    decreases |w[n]| - i
  {
    if i < |w[n]| {
      NotedTurn(w, far, t, s, n, source, e, i);
      if i == source || w[n][i].NoLink? {
        LoopIsDue(w, far, t, s, n, source, e, i + 1, tables, nodes);
      } else {
        var Link(m, k) := w[n][i];
        LoopIsDue(w, far, NotedBy(w, far, t, s, m, k, e), InsertInForest(w, far, s, m, k, e), n, source, e, i + 1, tables, nodes);
      }
    }
  }

  /** A journal that saved the entry without merging its stamp. */
  function SavedOnly(b: Node, e: Entry): Node {
    if b.Store? && Opens(b, e) then Store(b.r.(saved := b.r.saved + [e])) else b
  }

  /** Tables and stores after an insert at `n`: an entry from a port that does not exist is at most saved. */
  ghost function InsertedTables(w: Wiring, far: Sides, t: Held, s: Nodes, n: Id, source: nat, e: Entry): (r: Held)
    requires Forest(w, far) && Fits(w, t) && w.Keys == s.Keys && n in w
    ensures Fits(w, r)
  {
    if source < |w[n]| then NotedBy(w, far, t, s, n, source, e) else t
  }

  ghost function InsertedNodes(w: Wiring, far: Sides, s: Nodes, n: Id, source: nat, e: Entry): (r: Nodes)
    requires Forest(w, far) && w.Keys == s.Keys && n in w
    ensures r.Keys == s.Keys
  {
    if source < |w[n]| then InsertInForest(w, far, s, n, source, e) else s[n := SavedOnly(s[n], e)]
  }

  lemma RefusedInsert(w: Wiring, far: Sides, t: Held, s: Nodes, n: Id, source: nat, e: Entry)
    requires Forest(w, far) && Fits(w, t) && w.Keys == s.Keys && n in w && !Opens(s[n], e)
    ensures InsertedTables(w, far, t, s, n, source, e) == t && InsertedNodes(w, far, s, n, source, e) == s
  {
    assert s[n := s[n]] == s;
  }

  lemma {:induction false} InsertNotesBehind(w: Wiring, far: Sides, s: Nodes, n: Id, source: nat, e: Entry)
    requires Forest(w, far) && w.Keys == s.Keys && n in w
    ensures forall x | x in InsertNotes(w, far, s, n, source, e) :: x.at in Behind(far, n, source)
    decreases Behind(far, n, source), |w[n]| + 1
  {
    if Opens(s[n], e) {
      assert n in Behind(far, n, source);
      ForwardNotesBehind(w, far, s[n := Passed(s[n], e)], n, source, e, 0);
    }
  }

  lemma {:induction false} ForwardNotesBehind(w: Wiring, far: Sides, s: Nodes, n: Id, source: nat, e: Entry, i: nat)
    requires Forest(w, far) && w.Keys == s.Keys && n in w && i <= |w[n]|
    ensures forall x | x in ForwardNotes(w, far, s, n, source, e, i) :: x.at in Behind(far, n, source) && x.at != n
    decreases Behind(far, n, source), |w[n]| - i
  {
    if i < |w[n]| {
      if i == source || w[n][i].NoLink? {
        ForwardNotesBehind(w, far, s, n, source, e, i + 1);
      } else {
        LinkFacts(w, far, n, i);
        BehindNarrows(w, far, n, source, i);
        var Link(m, k) := w[n][i];
        InsertNotesBehind(w, far, s, m, k, e);
        ForwardNotesBehind(w, far, InsertInForest(w, far, s, m, k, e), n, source, e, i + 1);
        assert n !in far[n][i];
      }
    }
  }

  lemma {:induction false} NotesElsewhere(w: Wiring, t: Held, notes: seq<Note>, n: Id)
    requires Fits(w, t) && ArePorts(w, notes) && n in w && forall x | x in notes :: x.at != n
    ensures AddNotes(w, t, notes)[n] == t[n]
    decreases notes
  {
    if notes != [] {
      var Note(m, i, author) := notes[0];
      assert notes[0] in notes;
      var table := t[m][i];
      var noted := if author in table then t else t[m := t[m][i := table[author := 0]]];
      NotesElsewhere(w, noted, notes[1..], n);
    }
  }

  /** What one insert writes into the receiver's own tables: the author, at distance 0, under the port the entry came in
      through, unless it is listed there or the entry is refused. */
  lemma AuthorIsNoted(w: Wiring, far: Sides, t: Held, s: Nodes, n: Id, source: nat, e: Entry)
    requires Forest(w, far) && Fits(w, t) && w.Keys == s.Keys && Port(w, n, source)
    ensures InsertedTables(w, far, t, s, n, source, e)[n] ==
            if Opens(s[n], e) && e.data.id !in t[n][source] then t[n][source := t[n][source][e.data.id := 0]] else t[n]
  {
    if Opens(s[n], e) {
      var u := s[n := Passed(s[n], e)];
      NotedAtOnce(w, far, t, s, n, source, e);
      ForwardNotesArePorts(w, far, u, n, source, e, 0);
      ForwardNotesBehind(w, far, u, n, source, e, 0);
      OwnNoteIs(w, t, n, source, e);
      NotesElsewhere(w, NotedHere(w, t, n, source, e), ForwardNotes(w, far, u, n, source, e, 0), n);
    }
  }

  lemma OwnNoteIs(w: Wiring, t: Held, n: Id, source: nat, e: Entry)
    requires Fits(w, t) && Port(w, n, source)
    ensures NotedHere(w, t, n, source, e)[n] ==
            if e.data.id in t[n][source] then t[n] else t[n][source := t[n][source][e.data.id := 0]]
  {
    var notes := OwnNote(w, n, source, e);
    var table := t[n][source];
    var noted := if e.data.id in table then t else t[n := t[n][source := table[e.data.id := 0]]];
    assert notes == [Note(n, source, e.data.id)] && notes[1..] == [];
    assert AddNotes(w, noted, []) == noted;
  }

  /** Once the entry is let in and the author noted, what is due is the whole flood. */
  lemma DueAtStart(w: Wiring, far: Sides, t: Held, s: Nodes, n: Id, source: nat, e: Entry)
    requires Forest(w, far) && Fits(w, t) && w.Keys == s.Keys && n in w && Opens(s[n], e) && source < |w[n]|
    ensures Due(w, far, NotedHere(w, t, n, source, e), s[n := Passed(s[n], e)], n, source, e, 0,
                InsertedTables(w, far, t, s, n, source, e), InsertedNodes(w, far, s, n, source, e))
  {
    NotedAtOnce(w, far, t, s, n, source, e);
    LoopIsDue(w, far, NotedHere(w, t, n, source, e), s[n := Passed(s[n], e)], n, source, e, 0,
              InsertedTables(w, far, t, s, n, source, e), InsertedNodes(w, far, s, n, source, e));
  }

  /** After a turn of the loop, what is due is due from the next port on. */
  lemma DueAfterTurn(w: Wiring, far: Sides, t: Held, s: Nodes, n: Id, source: nat, e: Entry, i: nat, tables: Held, nodes: Nodes)
    requires Forest(w, far) && Fits(w, t) && w.Keys == s.Keys && n in w && i < |w[n]|
    requires Due(w, far, t, s, n, source, e, i, tables, nodes)
    ensures i == source || w[n][i].NoLink? ==> Due(w, far, t, s, n, source, e, i + 1, tables, nodes)
    ensures i != source && w[n][i].Link? ==>
              var Link(m, k) := w[n][i];
              && Port(w, m, k) && Behind(far, m, k) < Behind(far, n, source)
              && Due(w, far, InsertedTables(w, far, t, s, m, k, e), InsertedNodes(w, far, s, m, k, e),
                     n, source, e, i + 1, tables, nodes)
  {
    if i != source && w[n][i].Link? {
      LinkFacts(w, far, n, i);
      BehindNarrows(w, far, n, source, i);
    }
  }

  /** The tables after a whole list was inserted. */
  ghost function BatchNoted(w: Wiring, far: Sides, t: Held, s: Nodes, n: Id, source: nat, list: seq<Entry>): (r: Held)
    requires Forest(w, far) && Fits(w, t) && w.Keys == s.Keys && n in w
    ensures Fits(w, r)
    decreases list
  {
    if list == [] then t
    else
      BatchNoted(w, far, NotedBy(w, far, t, s, n, source, list[0]), InsertInForest(w, far, s, n, source, list[0]),
                 n, source, list[1..])
  }

  lemma {:induction false} BatchNotesAddUp(w: Wiring, far: Sides, t: Held, s: Nodes, n: Id, source: nat, list: seq<Entry>)
    requires Forest(w, far) && Fits(w, t) && w.Keys == s.Keys && n in w
    ensures ArePorts(w, BatchNotes(w, far, s, n, source, list))
    ensures BatchNoted(w, far, t, s, n, source, list) == AddNotes(w, t, BatchNotes(w, far, s, n, source, list))
    decreases list
  {
    if list != [] {
      var u, next := NotedBy(w, far, t, s, n, source, list[0]), InsertInForest(w, far, s, n, source, list[0]);
      InsertNotesArePorts(w, far, s, n, source, list[0]);
      BatchNotesAddUp(w, far, u, next, n, source, list[1..]);
      AddNotesConcat(w, t, InsertNotes(w, far, s, n, source, list[0]), BatchNotes(w, far, next, n, source, list[1..]));
    }
  }

  /** Both halves of the exchange. */
  lemma ExchangeNotesAddUp(w: Wiring, far: Sides, t: Held, s: Nodes, a: Id, p: nat, b: Id, q: nat,
                           fromB: seq<Entry>, fromA: seq<Entry>)
    requires Forest(w, far) && Fits(w, t) && w.Keys == s.Keys && a in w && b in w
    ensures ArePorts(w, ExchangeNotes(w, far, s, a, p, b, q, fromB, fromA))
    ensures AddNotes(w, t, ExchangeNotes(w, far, s, a, p, b, q, fromB, fromA)) ==
            BatchNoted(w, far, BatchNoted(w, far, t, s, a, p, fromB), BatchInForest(w, far, s, a, p, fromB), b, q, fromA)
  {
    var next := BatchInForest(w, far, s, a, p, fromB);
    BatchNotesAddUp(w, far, t, s, a, p, fromB);
    BatchNotesAddUp(w, far, BatchNoted(w, far, t, s, a, p, fromB), next, b, q, fromA);
    AddNotesConcat(w, t, BatchNotes(w, far, s, a, p, fromB), BatchNotes(w, far, next, b, q, fromA));
  }

  // Connecting, with the lists that are really exchanged

  /** What the asker is sent, and what it sends: each side's answer once the tables have been exchanged. */
  ghost function SentToAsker(own: set<Id>, m: Mesh, a: Id, b: Id): seq<Entry>
    requires Upright(own, m) && Linkable(m.g.w, m.g.far, m.g.t, a, b)
  {
    QueryAt(Join(m.g.w, a, b), JoinFar(m.g.far, a, b), Answered(own, m.g.w, m.g.far, m.g.t, a, b), m.s,
            b, ClockOf(m.s[a]), |m.g.w[b]|)
  }

  ghost function SentByAsker(own: set<Id>, m: Mesh, a: Id, b: Id): seq<Entry>
    requires Upright(own, m) && Linkable(m.g.w, m.g.far, m.g.t, a, b)
  {
    QueryAt(Join(m.g.w, a, b), JoinFar(m.g.far, a, b), Answered(own, m.g.w, m.g.far, m.g.t, a, b), m.s,
            a, ClockOf(m.s[b]), |m.g.w[a]|)
  }

  /** These lists are drawn from the stores of the sending trees, so connecting is one of the acts of a mesh. */
  lemma ConnectingIsMeeting(own: set<Id>, m: Mesh, a: Id, b: Id)
    requires Upright(own, m) && Linkable(m.g.w, m.g.far, m.g.t, a, b)
    ensures Possible(m, Meet(a, b, SentToAsker(own, m, a, b), SentByAsker(own, m, a, b)))
  {
    var Routes(w, far, t) := m.g;
    var w': Wiring, far': Sides, u := Join(w, a, b), JoinFar(far, a, b), Answered(own, w, far, t, a, b);
    NewSideOk(w, far, a, b);
    forall e | e in SentToAsker(own, m, a, b)
      ensures exists x :: x in m.s && x in Tree(far, b) && m.s[x].Store? && e in m.s[x].r.saved
    {
      QueryIsDrawn(w', far', u, m.s, b, ClockOf(m.s[a]), |w[b]|, e);
    }
    forall e | e in SentByAsker(own, m, a, b)
      ensures exists x :: x in m.s && x in Tree(far, a) && m.s[x].Store? && e in m.s[x].r.saved
    {
      QueryIsDrawn(w', far', u, m.s, a, ClockOf(m.s[b]), |w[a]|, e);
    }
  }

  /** The network after `a` has connected to `b`. */
  ghost function Connected(own: set<Id>, m: Mesh, a: Id, b: Id): Mesh
    requires Upright(own, m) && Linkable(m.g.w, m.g.far, m.g.t, a, b)
  {
    ConnectingIsMeeting(own, m, a, b);
    After(own, m, Meet(a, b, SentToAsker(own, m, a, b), SentByAsker(own, m, a, b)))
  }

  /** The tables before the last refresh. */
  ghost function ExchangedTables(own: set<Id>, m: Mesh, a: Id, b: Id): (r: Held)
    requires Upright(own, m) && Linkable(m.g.w, m.g.far, m.g.t, a, b)
    ensures Fits(Join(m.g.w, a, b), r)
  {
    var Routes(w, far, t) := m.g;
    var w', far', answered := Join(w, a, b), JoinFar(far, a, b), Answered(own, w, far, t, a, b);
    var fromB, fromA := SentToAsker(own, m, a, b), SentByAsker(own, m, a, b);
    BatchNoted(w', far', BatchNoted(w', far', answered, m.s, a, |w[a]|, fromB),
               BatchInForest(w', far', m.s, a, |w[a]|, fromB), b, |w[b]|, fromA)
  }

  ghost function ExchangedNodes(own: set<Id>, m: Mesh, a: Id, b: Id): (r: Nodes)
    requires Upright(own, m) && Linkable(m.g.w, m.g.far, m.g.t, a, b)
    ensures r.Keys == m.s.Keys
  {
    var w', far' := Join(m.g.w, a, b), JoinFar(m.g.far, a, b);
    BatchInForest(w', far', BatchInForest(w', far', m.s, a, |m.g.w[a]|, SentToAsker(own, m, a, b)),
                  b, |m.g.w[b]|, SentByAsker(own, m, a, b))
  }

  lemma AnswersAre(own: set<Id>, m: Mesh, a: Id, b: Id, w: Wiring, far: Sides, t: Held)
    requires Upright(own, m) && Linkable(m.g.w, m.g.far, m.g.t, a, b)
    requires w == Join(m.g.w, a, b) && far == JoinFar(m.g.far, a, b) && t == Answered(own, m.g.w, m.g.far, m.g.t, a, b)
    requires Forest(w, far) && Fits(w, t) && w.Keys == m.s.Keys && a in w && b in w
    ensures SentToAsker(own, m, a, b) == QueryAt(w, far, t, m.s, b, ClockOf(m.s[a]), |m.g.w[b]|)
    ensures SentByAsker(own, m, a, b) == QueryAt(w, far, t, m.s, a, ClockOf(m.s[b]), |m.g.w[a]|)
  {}

  lemma ExchangedTablesAre(own: set<Id>, m: Mesh, a: Id, b: Id, w: Wiring, far: Sides, t: Held, fromB: seq<Entry>, fromA: seq<Entry>)
    requires Upright(own, m) && Linkable(m.g.w, m.g.far, m.g.t, a, b)
    requires w == Join(m.g.w, a, b) && far == JoinFar(m.g.far, a, b) && t == Answered(own, m.g.w, m.g.far, m.g.t, a, b)
    requires Forest(w, far) && Fits(w, t) && w.Keys == m.s.Keys && a in w && b in w
    requires fromB == SentToAsker(own, m, a, b) && fromA == SentByAsker(own, m, a, b)
    ensures ExchangedTables(own, m, a, b) ==
            BatchNoted(w, far, BatchNoted(w, far, t, m.s, a, |m.g.w[a]|, fromB),
                       BatchInForest(w, far, m.s, a, |m.g.w[a]|, fromB), b, |m.g.w[b]|, fromA)
  {}

  lemma ExchangedNodesAre(own: set<Id>, m: Mesh, a: Id, b: Id, w: Wiring, far: Sides, fromB: seq<Entry>, fromA: seq<Entry>)
    requires Upright(own, m) && Linkable(m.g.w, m.g.far, m.g.t, a, b)
    requires w == Join(m.g.w, a, b) && far == JoinFar(m.g.far, a, b)
    requires Forest(w, far) && w.Keys == m.s.Keys && a in w && b in w
    requires fromB == SentToAsker(own, m, a, b) && fromA == SentByAsker(own, m, a, b)
    ensures ExchangedNodes(own, m, a, b) ==
            BatchInForest(w, far, BatchInForest(w, far, m.s, a, |m.g.w[a]|, fromB), b, |m.g.w[b]|, fromA)
  {}

  lemma ConnectedIs(own: set<Id>, m: Mesh, a: Id, b: Id)
    requires Upright(own, m) && Linkable(m.g.w, m.g.far, m.g.t, a, b)
    ensures var w', far' := Join(m.g.w, a, b), JoinFar(m.g.far, a, b);
            && |w'[a]| > 1
            && Connected(own, m, a, b) ==
               Mesh(Routes(w', far', RefreshOthers(own, w', far', ExchangedTables(own, m, a, b), a, |m.g.w[a]|, 1)),
                    ExchangedNodes(own, m, a, b))
  {
    var Routes(w, far, t) := m.g;
    NewPort(w, far, a, b);
    ConnectingIsMeeting(own, m, a, b);
    ExchangeNotesAddUp(Join(w, a, b), JoinFar(far, a, b), Answered(own, w, far, t, a, b), m.s, a, |w[a]|, b, |w[b]|,
                       SentToAsker(own, m, a, b), SentByAsker(own, m, a, b));
  }

  // Relaying, with the insert at the end of the way

  ghost function RelayedTables(w: Wiring, far: Sides, t: Held, s: Nodes, o: Outcome, data: Data): (r: Held)
    requires Forest(w, far) && Fits(w, t) && w.Keys == s.Keys
    ensures Fits(w, r)
  {
    if o.Inserted? && o.at in w then NotedBy(w, far, t, s, o.at, 0, StampAt(s, o.at, data)) else t
  }

  ghost function RelayedNodes(w: Wiring, far: Sides, s: Nodes, o: Outcome, data: Data): (r: Nodes)
    requires Forest(w, far) && w.Keys == s.Keys
    ensures r.Keys == s.Keys
  {
    if o.Inserted? && o.at in w then AppendAt(w, far, s, o.at, data) else s
  }

  /** From a caller's own call, this is what relaying does to the stores. */
  lemma RelayedIsRelayData(own: set<Id>, w: Wiring, far: Sides, t: Held, s: Nodes, n: Id, data: Data)
    requires Exactly(own, w, far, t) && n in w && w.Keys == s.Keys
    ensures var d := Addressee(own, n, data);
            RelayedNodes(w, far, s, Relay(own, w, far, t, n, d.id, 0), d) == RelayData(own, w, far, t, s, n, data)
  {}

  /** Relaying answers with the clock the owner has afterwards. */
  lemma RelayAnswersNewClock(w: Wiring, far: Sides, s: Nodes, at: Id, hops: nat, data: Data)
    requires Forest(w, far) && w.Keys == s.Keys && at in w && (s[at].Store? ==> ClockIsJoin(s[at].r))
    ensures var r := RelayedNodes(w, far, s, Inserted(at, hops), data);
            RelayedClock(s, Inserted(at, hops), data) == ClockOf(r[at]) == Tick(ClockOf(s[at]), data.id)
    ensures RelayedClock(s, NoRoute, data) == INVALID
  {
    assert at in Behind(far, at, 0) && |w[at]| > 0;
    TickIsNext(ClockOf(s[at]), data.id);
    if s[at].Store? {
      DuplicateBranchUnreachable(s[at].r, StampAt(s, at, data));
    }
    InsertTakesOpen(w, far, s, at, 0, StampAt(s, at, data), at);
  }

  ghost function RelayedClock(s: Nodes, o: Outcome, data: Data): Clock {
    if o.Inserted? && o.at in s && Opens(s[o.at], StampAt(s, o.at, data))
    then Merge(ClockOf(s[o.at]), StampAt(s, o.at, data).clock) else INVALID
  }
}
