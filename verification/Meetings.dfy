/** Connecting while entries are exchanged does not disturb the tables. */
module Meetings {
  import opened Clocks
  import opened Entries
  import opened Flooding
  import opened Forests
  import opened Tables
  import opened Refreshes
  import opened Joins
  import opened Connects
  import opened Hubs

  /** What one flood writes: each broker that lets the entry pass notes the author under the port it came in through. */
  ghost function InsertNotes(w: Wiring, far: Sides, s: Nodes, n: Id, source: nat, e: Entry): seq<Note>
    requires Forest(w, far) && w.Keys == s.Keys && n in w
    decreases Behind(far, n, source), |w[n]| + 1
  {
    if !Opens(s[n], e) then []
    else
      (if Port(w, n, source) then [Note(n, source, e.data.id)] else []) +
      ForwardNotes(w, far, s[n := Passed(s[n], e)], n, source, e, 0)
  }

  ghost function ForwardNotes(w: Wiring, far: Sides, s: Nodes, n: Id, source: nat, e: Entry, i: nat): seq<Note>
    requires Forest(w, far) && w.Keys == s.Keys && n in w && i <= |w[n]|
    decreases Behind(far, n, source), |w[n]| - i
  {
    if i == |w[n]| then []
    else if i == source || w[n][i].NoLink? then ForwardNotes(w, far, s, n, source, e, i + 1)
    else
      LinkFacts(w, far, n, i);
      BehindNarrows(w, far, n, source, i);
      var Link(m, k) := w[n][i];
      InsertNotes(w, far, s, m, k, e) + ForwardNotes(w, far, InsertInForest(w, far, s, m, k, e), n, source, e, i + 1)
  }

  /** The list is inserted one by one. */
  ghost function BatchInForest(w: Wiring, far: Sides, s: Nodes, n: Id, source: nat, list: seq<Entry>): (r: Nodes)
    requires Forest(w, far) && w.Keys == s.Keys && n in w
    ensures r.Keys == s.Keys
    decreases list
  {
    if list == [] then s else BatchInForest(w, far, InsertInForest(w, far, s, n, source, list[0]), n, source, list[1..])
  }

  ghost function BatchNotes(w: Wiring, far: Sides, s: Nodes, n: Id, source: nat, list: seq<Entry>): seq<Note>
    requires Forest(w, far) && w.Keys == s.Keys && n in w
    decreases list
  {
    if list == [] then []
    else
      InsertNotes(w, far, s, n, source, list[0]) +
      BatchNotes(w, far, InsertInForest(w, far, s, n, source, list[0]), n, source, list[1..])
  }

  /** The author is beyond the port the entry comes in through, or it is this broker's own entry. */
  ghost predicate ComesFrom(w: Wiring, far: Sides, n: Id, source: nat, author: Id)
    requires Forest(w, far) && n in w
  {
    if Port(w, n, source) then source < |far[n]| && author in far[n][source] else author == n
  }

  lemma ComesFromNext(w: Wiring, far: Sides, n: Id, source: nat, author: Id, i: nat)
    requires Forest(w, far) && n in w && ComesFrom(w, far, n, source, author) && Port(w, n, i) && i != source
    ensures w[n][i].peer in w && ComesFrom(w, far, w[n][i].peer, w[n][i].far, author)
  {
    LinkFacts(w, far, n, i);
  }

  /** The notes of a flood, from a port or of a local insert, name the author on the side the entry came from. */
  lemma {:induction false} InsertNotesOk(own: set<Id>, w: Wiring, far: Sides, s: Nodes, n: Id, source: nat, e: Entry)
    requires Forest(w, far) && w.Keys == s.Keys && n in w && e.data.id in own
    requires ComesFrom(w, far, n, source, e.data.id)
    ensures NotesOk(own, w, far, InsertNotes(w, far, s, n, source, e))
    decreases Behind(far, n, source), |w[n]| + 1
  {
    if Opens(s[n], e) {
      ForwardNotesOk(own, w, far, s[n := Passed(s[n], e)], n, source, e, 0);
    }
  }

  lemma {:induction false} ForwardNotesOk(own: set<Id>, w: Wiring, far: Sides, s: Nodes, n: Id, source: nat, e: Entry, i: nat)
    requires Forest(w, far) && w.Keys == s.Keys && n in w && i <= |w[n]| && e.data.id in own
    requires ComesFrom(w, far, n, source, e.data.id)
    ensures NotesOk(own, w, far, ForwardNotes(w, far, s, n, source, e, i))
    decreases Behind(far, n, source), |w[n]| - i
  {
    if i < |w[n]| {
      if i == source || w[n][i].NoLink? {
        ForwardNotesOk(own, w, far, s, n, source, e, i + 1);
      } else {
        LinkFacts(w, far, n, i);
        BehindNarrows(w, far, n, source, i);
        ComesFromNext(w, far, n, source, e.data.id, i);
        var Link(m, k) := w[n][i];
        InsertNotesOk(own, w, far, s, m, k, e);
        ForwardNotesOk(own, w, far, InsertInForest(w, far, s, m, k, e), n, source, e, i + 1);
      }
    }
  }

  lemma {:induction false} BatchNotesOk(own: set<Id>, w: Wiring, far: Sides, s: Nodes, n: Id, source: nat, list: seq<Entry>)
    requires Forest(w, far) && w.Keys == s.Keys && Port(w, n, source) && source < |far[n]|
    requires forall e | e in list :: e.data.id in own && e.data.id in far[n][source]
    ensures NotesOk(own, w, far, BatchNotes(w, far, s, n, source, list))
    decreases list
  {
    if list != [] {
      assert list[0] in list;
      InsertNotesOk(own, w, far, s, n, source, list[0]);
      BatchNotesOk(own, w, far, InsertInForest(w, far, s, n, source, list[0]), n, source, list[1..]);
    }
  }

  /** What the exchange writes: the asker inserts what the other sent, then the other what the asker sent. */
  ghost function ExchangeNotes(w: Wiring, far: Sides, s: Nodes, a: Id, p: nat, b: Id, q: nat,
                               fromB: seq<Entry>, fromA: seq<Entry>): seq<Note>
    requires Forest(w, far) && w.Keys == s.Keys && a in w && b in w
  {
    BatchNotes(w, far, s, a, p, fromB) + BatchNotes(w, far, BatchInForest(w, far, s, a, p, fromB), b, q, fromA)
  }

  lemma ExchangeNotesOk(own: set<Id>, w: Wiring, far: Sides, t: Held, a: Id, b: Id, s: Nodes,
                        fromB: seq<Entry>, fromA: seq<Entry>)
    requires Linkable(w, far, t, a, b) && w.Keys == s.Keys
    requires forall e | e in fromB :: e.data.id in own && e.data.id in Tree(far, b)
    requires forall e | e in fromA :: e.data.id in own && e.data.id in Tree(far, a)
    ensures var w', far' := Join(w, a, b), JoinFar(far, a, b);
            NotesOk(own, w', far', ExchangeNotes(w', far', s, a, |w[a]|, b, |w[b]|, fromB, fromA))
  {
    var w': Wiring, far': Sides, p, q := Join(w, a, b), JoinFar(far, a, b), |w[a]|, |w[b]|;
    NewPort(w, far, a, b);
    BatchNotesOk(own, w', far', s, a, p, fromB);
    BatchNotesOk(own, w', far', BatchInForest(w', far', s, a, p, fromB), b, q, fromA);
  }

  /** Connecting two trees and exchanging any entries whose authors sit on the sending side, with all the
      floods this causes, ends and leaves every table of the joined tree exact. */
  lemma MeetingIsExact(own: set<Id>, w: Wiring, far: Sides, t: Held, a: Id, b: Id, s: Nodes,
                       fromB: seq<Entry>, fromA: seq<Entry>)
    requires Linkable(w, far, t, a, b) && AllExact(own, w, far, t) && w.Keys == s.Keys
    requires forall e | e in fromB :: e.data.id in own && e.data.id in Tree(far, b)
    requires forall e | e in fromA :: e.data.id in own && e.data.id in Tree(far, a)
    ensures var w', far' := Join(w, a, b), JoinFar(far, a, b);
            var notes := ExchangeNotes(w', far', s, a, |w[a]|, b, |w[b]|, fromB, fromA);
            NotesOk(own, w', far', notes) && AllExact(own, w', far', Connect(own, w, far, t, a, b, notes))
  {
    var w': Wiring, far': Sides, p, q := Join(w, a, b), JoinFar(far, a, b), |w[a]|, |w[b]|;
    ExchangeNotesOk(own, w, far, t, a, b, s, fromB, fromA);
    ConnectIsExact(own, w, far, t, a, b, ExchangeNotes(w', far', s, a, p, b, q, fromB, fromA));
  }
}
