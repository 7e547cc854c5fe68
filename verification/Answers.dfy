/** What a query in a forest returns: one journal's full delta, or nothing. */
module Answers {
  import opened Clocks
  import opened Entries
  import opened Flooding
  import opened Listings
  import opened Deltas
  import opened Forests
  import opened Tables
  import opened Refreshes
  import opened Joins
  import opened Connects
  import opened Hubs
  import opened Relays
  import opened Meshes
  import opened Exchanges

  /** `list` is everything journal `x` lists that `from` does not dominate, in the order it lists it. */
  ghost predicate IsDeltaOf(s: Nodes, x: Id, from: Clock, list: seq<Entry>) {
    && x in s && s[x].Store? && list == Deltas.Query(Listing(s[x].r), from)
    && forall e :: e in list <==> e in Listing(s[x].r) && !Leq(e.clock, from)
  }

  /** A journal answers with its own delta, from whichever side it is asked. */
  lemma JournalAnswers(w: Wiring, far: Sides, t: Held, s: Nodes, n: Id, from: Clock, sender: nat)
    requires Forest(w, far) && Fits(w, t) && w.Keys == s.Keys && n in w && s[n].Store?
    ensures IsDeltaOf(s, n, from, QueryAt(w, far, t, s, n, from, sender))
  {
    QueryMembers(Listing(s[n].r), from);
  }

  /** On the side of `n` away from its port `sender`, the tables that do not look back to `n` are exact. */
  ghost predicate KnowsAhead(own: set<Id>, w: Wiring, far: Sides, t: Held, n: Id, sender: nat)
    requires Forest(w, far) && Fits(w, t) && n in w
  {
    forall x, j: nat {:trigger Port(w, x, j)} | x in Behind(far, n, sender) && Port(w, x, j) && !(x == n && j == sender) ::
      j < |far[x]| && (n !in far[x][j] ==> IsExact(own, w, far, t, x, j))
  }

  ghost predicate HasJournal(own: set<Id>, side: set<Id>) { exists x :: x in side && x in own }

  /** Port `j` is the lowest one from `i` on, the sender's aside, beyond which there is a journal. */
  ghost predicate FirstToJournals(own: set<Id>, w: Wiring, far: Sides, n: Id, sender: nat, i: nat, j: nat)
    requires Forest(w, far) && n in w
  {
    && i <= j && j != sender && LeadsToJournals(own, w, far, n, j)
    && forall k: nat | i <= k < j && k != sender :: !LeadsToJournals(own, w, far, n, k)
  }

  ghost predicate LeadsToJournals(own: set<Id>, w: Wiring, far: Sides, n: Id, j: nat)
    requires Forest(w, far) && n in w
  {
    Port(w, n, j) && j < |far[n]| && HasJournal(own, far[n][j])
  }

  lemma KnowsOnward(own: set<Id>, w: Wiring, far: Sides, t: Held, n: Id, sender: nat, i: nat)
    requires Forest(w, far) && Fits(w, t) && Port(w, n, i) && i != sender && KnowsAhead(own, w, far, t, n, sender)
    ensures w[n][i].peer in w && KnowsAhead(own, w, far, t, w[n][i].peer, w[n][i].far)
  {
    LinkFacts(w, far, n, i);
    BehindNarrows(w, far, n, sender, i);
    var Link(m, k) := w[n][i];
    forall x, j: nat | x in Behind(far, m, k) && Port(w, x, j) && !(x == m && j == k)
      ensures j < |far[x]| && (m !in far[x][j] ==> IsExact(own, w, far, t, x, j))
    {
      assert x != n by { assert n !in far[n][i]; }
      LinkFacts(w, far, x, j);
      if m !in far[x][j] && n in far[x][j] {
        BackMeetsPeer(w, far, n, i, x, j);
      }
    }
  }

  /** A port of a third broker that leads back to `n` leads to `n`'s peer too. */
  lemma BackMeetsPeer(w: Wiring, far: Sides, n: Id, i: nat, x: Id, j: nat)
    requires Forest(w, far) && Port(w, n, i) && Port(w, x, j) && j < |far[x]| && x != n && n in far[x][j]
    ensures x == w[n][i].peer ==> j == w[n][i].far
    ensures x != w[n][i].peer ==> w[n][i].peer in far[x][j]
  {
    LinkFacts(w, far, n, i);
    var Link(m, k) := w[n][i];
    if x == m {
      PortToIsUnique(w, far, m, n, k);
      PortToIsUnique(w, far, m, n, j);
    } else {
      EndsOnSameSide(w, far, n, i, x, j);
    }
  }

  lemma EmptyTable(own: set<Id>, w: Wiring, far: Sides, t: Held, n: Id, i: nat)
    requires Forest(w, far) && Fits(w, t) && Port(w, n, i) && IsExact(own, w, far, t, n, i)
    ensures t[n][i] == map[] <==> !HasJournal(own, far[n][i])
  {
    if x :| x in far[n][i] && x in own {
      assert x in t[n][i];
    }
    if t[n][i] != map[] {
      var x :| x in t[n][i];
      assert x in far[n][i] && x in own;
    }
  }

  /** Whoever is asked: the answer is the delta of some journal on that side, or empty if there is none. */
  lemma {:induction false} SideAnswers(own: set<Id>, w: Wiring, far: Sides, t: Held, s: Nodes, n: Id, from: Clock, sender: nat)
    requires Forest(w, far) && Fits(w, t) && w.Keys == s.Keys && n in w && Owns(own, s) && KnowsAhead(own, w, far, t, n, sender)
    ensures if HasJournal(own, Behind(far, n, sender)) then
              exists x :: x in Behind(far, n, sender) && IsDeltaOf(s, x, from, QueryAt(w, far, t, s, n, from, sender))
            else QueryAt(w, far, t, s, n, from, sender) == []
    decreases Behind(far, n, sender), |w[n]| + 1
  {
    if s[n].Store? {
      JournalAnswers(w, far, t, s, n, from, sender);
      assert n in Behind(far, n, sender) && n in own;
    } else {
      HubAnswers(own, w, far, t, s, n, from, sender);
      if j: nat :| FirstToJournals(own, w, far, n, sender, 1, j) {
        BehindNarrows(w, far, n, sender, j);
      }
    }
  }

  /** With exact tables a hub answers with the full delta of a journal beyond the lowest port behind which there is
      one, the sender's port aside, and with nothing when no such port exists. */
  lemma {:induction false} HubAnswers(own: set<Id>, w: Wiring, far: Sides, t: Held, s: Nodes, n: Id, from: Clock, sender: nat)
    requires Forest(w, far) && Fits(w, t) && w.Keys == s.Keys && n in w && Owns(own, s) && KnowsAhead(own, w, far, t, n, sender)
    requires s[n].Hub?
    ensures forall j: nat | FirstToJournals(own, w, far, n, sender, 1, j) ::
              SomeDelta(far[n], j, s, from, QueryAt(w, far, t, s, n, from, sender))
    ensures HasJournal(own, Behind(far, n, sender)) <==> exists j: nat :: FirstToJournals(own, w, far, n, sender, 1, j)
    ensures !HasJournal(own, Behind(far, n, sender)) ==> QueryAt(w, far, t, s, n, from, sender) == []
    decreases Behind(far, n, sender), |w[n]|
  {
    PortsAnswer(own, w, far, t, s, n, from, sender, 1);
    PortsCoverSide(own, w, far, n, sender);
  }

  lemma PortsCoverSide(own: set<Id>, w: Wiring, far: Sides, n: Id, sender: nat)
    requires Forest(w, far) && n in w && n !in own
    ensures HasJournal(own, Behind(far, n, sender)) <==> exists j: nat :: FirstToJournals(own, w, far, n, sender, 1, j)
  {
    assert NodeOk(w, far, n);
    if x :| x in Behind(far, n, sender) && x in own {
      var j: nat :| j < |far[n]| && j != sender && x in far[n][j];
      PortToIsUnique(w, far, n, x, j);
      LinkFacts(w, far, n, j);
      assert LeadsToJournals(own, w, far, n, j);
      LowestExists(own, w, far, n, sender, j);
    }
    if j: nat :| FirstToJournals(own, w, far, n, sender, 1, j) {
      var x :| x in far[n][j] && x in own;
      assert x in Behind(far, n, sender);
    }
  }

  lemma {:induction false} LowestExists(own: set<Id>, w: Wiring, far: Sides, n: Id, sender: nat, j: nat)
    requires Forest(w, far) && n in w && 1 <= j && j != sender && LeadsToJournals(own, w, far, n, j)
    ensures exists k: nat :: FirstToJournals(own, w, far, n, sender, 1, k)
    decreases j
  {
    if k: nat :| 1 <= k < j && k != sender && LeadsToJournals(own, w, far, n, k) {
      LowestExists(own, w, far, n, sender, k);
    } else {
      assert FirstToJournals(own, w, far, n, sender, 1, j);
    }
  }

  /** `list` is the answer of the ports of `n` from `i` on. */
  ghost predicate PortsAnswered(own: set<Id>, w: Wiring, far: Sides, s: Nodes, n: Id, from: Clock, sender: nat, i: nat, list: seq<Entry>)
    requires Forest(w, far) && n in w
  {
    && (forall j: nat | FirstToJournals(own, w, far, n, sender, i, j) :: SomeDelta(far[n], j, s, from, list))
    && ((forall j: nat | i <= j && j != sender :: !LeadsToJournals(own, w, far, n, j)) ==> list == [])
  }

  ghost predicate SomeDelta(sides: seq<set<Id>>, j: nat, s: Nodes, from: Clock, list: seq<Entry>) {
    j < |sides| && exists x :: x in sides[j] && IsDeltaOf(s, x, from, list)
  }

  lemma {:induction false} PortsAnswer(own: set<Id>, w: Wiring, far: Sides, t: Held, s: Nodes, n: Id, from: Clock, sender: nat, i: nat)
    requires Forest(w, far) && Fits(w, t) && w.Keys == s.Keys && n in w && Owns(own, s) && KnowsAhead(own, w, far, t, n, sender)
    requires 1 <= i
    ensures PortsAnswered(own, w, far, s, n, from, sender, i, QueryPorts(w, far, t, s, n, from, sender, i))
    decreases Behind(far, n, sender), if i <= |w[n]| then |w[n]| - i else 0
  {
    if i < |w[n]| {
      var passed := i == sender || w[n][i].NoLink?;
      if !passed {
        LinkFacts(w, far, n, i);
        assert n in Behind(far, n, sender) && Port(w, n, i) && n !in far[n][i];
        EmptyTable(own, w, far, t, n, i);
        passed := t[n][i] == map[];
      }
      if passed {
        PortsAnswer(own, w, far, t, s, n, from, sender, i + 1);
        NotHere(own, w, far, s, n, from, sender, i, QueryPorts(w, far, t, s, n, from, sender, i + 1));
      } else {
        BehindNarrows(w, far, n, sender, i);
        KnowsOnward(own, w, far, t, n, sender, i);
        SideAnswers(own, w, far, t, s, w[n][i].peer, from, w[n][i].far);
        FoundHere(own, w, far, s, n, from, sender, i, QueryPorts(w, far, t, s, n, from, sender, i));
      }
    }
  }

  lemma FoundHere(own: set<Id>, w: Wiring, far: Sides, s: Nodes, n: Id, from: Clock, sender: nat, i: nat, list: seq<Entry>)
    requires Forest(w, far) && n in w && i != sender && LeadsToJournals(own, w, far, n, i)
    requires SomeDelta(far[n], i, s, from, list)
    ensures PortsAnswered(own, w, far, s, n, from, sender, i, list)
  {
    assert forall j: nat | FirstToJournals(own, w, far, n, sender, i, j) :: j == i;
  }

  /** A port that does not lead to journals is passed over. */
  lemma NotHere(own: set<Id>, w: Wiring, far: Sides, s: Nodes, n: Id, from: Clock, sender: nat, i: nat, list: seq<Entry>)
    requires Forest(w, far) && n in w && (i == sender || !LeadsToJournals(own, w, far, n, i))
    requires PortsAnswered(own, w, far, s, n, from, sender, i + 1, list)
    ensures PortsAnswered(own, w, far, s, n, from, sender, i, list)
  {
    assert forall j: nat | FirstToJournals(own, w, far, n, sender, i, j) :: FirstToJournals(own, w, far, n, sender, i + 1, j);
  }

  // The two answers of a connect

  /** When the entries are exchanged, both sides know what lies ahead on the side that is asked. */
  lemma AnsweredKnowsAhead(own: set<Id>, w: Wiring, far: Sides, t: Held, a: Id, b: Id)
    requires Linkable(w, far, t, a, b) && AllExact(own, w, far, t)
    ensures var w', far', u := Join(w, a, b), JoinFar(far, a, b), Answered(own, w, far, t, a, b);
            && Behind(far', a, |w[a]|) == Tree(far, a) && KnowsAhead(own, w', far', u, a, |w[a]|)
            && Behind(far', b, |w[b]|) == Tree(far, b) && KnowsAhead(own, w', far', u, b, |w[b]|)
  {
    AnsweredIsSettled(own, w, far, t, a, b);
    NewSideOk(w, far, a, b);
    EndsDiffer(w, far, a, b);
    KnownFromSettled(own, w, far, t, a, b, Join(w, a, b), JoinFar(far, a, b), Answered(own, w, far, t, a, b));
  }

  lemma KnownFromSettled(own: set<Id>, w: Wiring, far: Sides, t: Held, a: Id, b: Id, w': Wiring, far': Sides, u: Held)
    requires Linkable(w, far, t, a, b) && Forest(w', far') && Fits(w', u) && w'.Keys == w.Keys
    requires Behind(far', a, |w[a]|) == Tree(far, a) && Behind(far', b, |w[b]|) == Tree(far, b) && Tree(far, a) !! Tree(far, b)
    requires SideExact(own, w', far', u, w.Keys - (Tree(far, a) - {a})) && ForwardExact(own, w', far', u, Tree(far, a) - {a}, a)
    ensures KnowsAhead(own, w', far', u, a, |w[a]|) && KnowsAhead(own, w', far', u, b, |w[b]|)
  {
    forall x, j: nat | Port(w', x, j)
      ensures j < |far'[x]| && (x in Tree(far, b) || x == a ==> IsExact(own, w', far', u, x, j))
    {
      LinkFacts(w', far', x, j);
      if x in Tree(far, b) || x == a {
        assert x in w.Keys - (Tree(far, a) - {a});
      }
    }
  }

  /** What each end of a new link is sent: the delta of a journal of the other tree, or nothing if that tree has none. */
  lemma ExchangedDeltas(own: set<Id>, m: Mesh, a: Id, b: Id)
    requires Upright(own, m) && Linkable(m.g.w, m.g.far, m.g.t, a, b)
    ensures if HasJournal(own, Tree(m.g.far, b)) then
              exists y :: y in Tree(m.g.far, b) && IsDeltaOf(m.s, y, ClockOf(m.s[a]), SentToAsker(own, m, a, b))
            else SentToAsker(own, m, a, b) == []
    ensures if HasJournal(own, Tree(m.g.far, a)) then
              exists x :: x in Tree(m.g.far, a) && IsDeltaOf(m.s, x, ClockOf(m.s[b]), SentByAsker(own, m, a, b))
            else SentByAsker(own, m, a, b) == []
  {
    var Routes(w, far, t) := m.g;
    AnsweredKnowsAhead(own, w, far, t, a, b);
    SideAnswers(own, Join(w, a, b), JoinFar(far, a, b), Answered(own, w, far, t, a, b), m.s, b, ClockOf(m.s[a]), |w[b]|);
    SideAnswers(own, Join(w, a, b), JoinFar(far, a, b), Answered(own, w, far, t, a, b), m.s, a, ClockOf(m.s[b]), |w[a]|);
  }
}
