/** Hop-count tables: what a broker offers through a port. */
module Tables {
  import opened Clocks
  import opened Flooding
  import opened Listings
  import opened Forests

  /** Per journal, its distance. */
  type Table = map<Id, nat>

  /** The table each broker holds for each of its ports. */
  type Held = map<Id, seq<Table>>

  ghost predicate Fits(w: Wiring, t: Held) { t.Keys == w.Keys && forall n | n in w :: |t[n]| == |w[n]| }

  /** Broker::sources: the tables of all valid ports but the sender's; a journal adds itself as port 0, at distance 0. */
  function Sources(id: Id, journal: bool, links: seq<Link>, tables: seq<Table>, sender: nat): map<nat, Table>
    requires |links| == |tables|
  {
    (map i | 0 <= i < |links| && !(i > 0 && i == sender) && links[i].Link? && tables[i] != map[] :: tables[i]) +
    (if journal then map[0 := map[id := 0]] else map[])
  }

  function Farther(t: Table): Table { map x | x in t :: t[x] + 1 }

  /** A later port never overwrites what an earlier one offers. */
  function MergePorts(ports: seq<nat>, sources: map<nat, Table>, out: Table): Table
    requires forall p | p in ports :: p in sources
    decreases ports
  {
    if ports == [] then out else MergePorts(ports[1..], sources, Farther(sources[ports[0]]) + out)
  }

  function UpdateProvides(sources: map<nat, Table>): Table {
    SortedIdsAreAscending(sources.Keys);
    MergePorts(SortedIds(sources.Keys), sources, map[])
  }

  lemma {:induction false} MergedContents(ports: seq<nat>, sources: map<nat, Table>, out: Table, x: Id)
    requires StrictlyAscending(ports) && forall p | p in ports :: p in sources
    ensures var r := MergePorts(ports, sources, out);
            && (x in out ==> x in r && r[x] == out[x])
            && (x in r && x !in out ==> exists p :: p in ports && x in sources[p] && r[x] == sources[p][x] + 1 &&
                                                   forall q | q in ports && q < p :: x !in sources[q])
            && (x !in r ==> forall p | p in ports :: x !in sources[p])
    decreases ports
  {
    if ports != [] {
      var p, rest := ports[0], ports[1..];
      assert p in ports && forall q :: q in ports <==> q == p || q in rest;
      assert forall i, j | 0 <= i < j < |rest| :: rest[i] == ports[i + 1] && rest[j] == ports[j + 1];
      forall q | q in rest ensures p < q {
        var j :| 0 <= j < |rest| && rest[j] == q;
        assert ports[j + 1] == q;
      }
      MergedContents(rest, sources, Farther(sources[p]) + out, x);
    }
  }

  /** Every journal some port offers is offered on, one hop farther; the lowest port that offers it decides. */
  lemma ProvidesContents(sources: map<nat, Table>, x: Id)
    ensures x in UpdateProvides(sources) <==> exists p :: p in sources && x in sources[p]
    ensures x in UpdateProvides(sources) ==>
              exists p :: p in sources && x in sources[p] && UpdateProvides(sources)[x] == sources[p][x] + 1 &&
                          forall q | q in sources && q < p :: x !in sources[q]
  {
    SortedIdsAreAscending(sources.Keys);
    MergedContents(SortedIds(sources.Keys), sources, map[], x);
  }

  function Provides(own: set<Id>, w: Wiring, t: Held, n: Id, sender: nat): Table
    requires n in w && n in t && |w[n]| == |t[n]|
  {
    UpdateProvides(Sources(n, n in own, w[n], t[n], sender))
  }

  // Exact tables

  /** The journals beyond the port, with their hop counts. */
  ghost function Exact(own: set<Id>, w: Wiring, far: Sides, n: Id, i: nat): Table
    requires Forest(w, far) && Port(w, n, i) && i < |far[n]|
  {
    map x | x in far[n][i] && x in own :: Dist(w, far, n, i, x)
  }

  ghost predicate IsExact(own: set<Id>, w: Wiring, far: Sides, t: Held, n: Id, i: nat)
    requires Forest(w, far) && Fits(w, t) && Port(w, n, i)
  {
    i < |far[n]| && t[n][i] == Exact(own, w, far, n, i)
  }

  ghost predicate AllExact(own: set<Id>, w: Wiring, far: Sides, t: Held)
    requires Forest(w, far) && Fits(w, t)
  {
    forall n, i: nat {:trigger Port(w, n, i)} | Port(w, n, i) :: IsExact(own, w, far, t, n, i)
  }

  /** If the other ports of a broker hold exact tables, what it offers through a port is exact for the peer. */
  lemma OfferIsExact(own: set<Id>, w: Wiring, far: Sides, t: Held, n: Id, i: nat)
    requires Forest(w, far) && Fits(w, t) && Port(w, n, i)
    requires forall j: nat | Port(w, n, j) && j != i :: IsExact(own, w, far, t, n, j)
    ensures var Link(m, s) := w[n][i];
            Port(w, m, s) && s < |far[m]| && Provides(own, w, t, n, i) == Exact(own, w, far, m, s)
  {
    LinkFacts(w, far, n, i);
    var Link(m, s) := w[n][i];
    forall x ensures (x in Provides(own, w, t, n, i) <==> x in Exact(own, w, far, m, s))
             ensures x in Provides(own, w, t, n, i) ==> Provides(own, w, t, n, i)[x] == Exact(own, w, far, m, s)[x]
    {
      OfferOfOne(own, w, far, t, n, i, x);
    }
  }

  /** A source that counts `x` at distance `d` is right for the peer. */
  ghost predicate OfferedBy(own: set<Id>, w: Wiring, far: Sides, m: Id, s: nat, x: Id, d: nat)
    requires Forest(w, far) && Port(w, m, s) && s < |far[m]|
  {
    x in own && x in far[m][s] && d + 1 == Dist(w, far, m, s, x)
  }

  lemma SourceIsRight(own: set<Id>, w: Wiring, far: Sides, t: Held, n: Id, i: nat, p: nat, x: Id)
    requires Forest(w, far) && Fits(w, t) && Port(w, n, i)
    requires forall j: nat | Port(w, n, j) && j != i :: IsExact(own, w, far, t, n, j)
    requires var sources := Sources(n, n in own, w[n], t[n], i); p in sources && x in sources[p]
    ensures var Link(m, s) := w[n][i];
            && Port(w, m, s) && s < |far[m]|
            && OfferedBy(own, w, far, m, s, x, Sources(n, n in own, w[n], t[n], i)[p][x])
  {
    LinkFacts(w, far, n, i);
    var Link(m, s) := w[n][i];
    if p > 0 {
      assert Port(w, n, p) && IsExact(own, w, far, t, n, p);
      LinkFacts(w, far, n, p);
      PortToIsUnique(w, far, n, x, p);
    } else {
      assert w[n][0].NoLink?;
    }
  }

  lemma SourceExists(own: set<Id>, w: Wiring, far: Sides, t: Held, n: Id, i: nat, x: Id) returns (p: nat)
    requires Forest(w, far) && Fits(w, t) && Port(w, n, i)
    requires forall j: nat | Port(w, n, j) && j != i :: IsExact(own, w, far, t, n, j)
    requires x in own && x in Behind(far, n, i)
    ensures var sources := Sources(n, n in own, w[n], t[n], i); p in sources && x in sources[p]
  {
    LinkFacts(w, far, n, i);
    if x == n {
      p := 0;
    } else {
      p :| 0 <= p < |far[n]| && p != i && x in far[n][p];
      PortToIsUnique(w, far, n, x, p);
      LinkFacts(w, far, n, p);
      assert IsExact(own, w, far, t, n, p);
      assert x in t[n][p];
    }
  }

  lemma OfferOfOne(own: set<Id>, w: Wiring, far: Sides, t: Held, n: Id, i: nat, x: Id)
    requires Forest(w, far) && Fits(w, t) && Port(w, n, i)
    requires forall j: nat | Port(w, n, j) && j != i :: IsExact(own, w, far, t, n, j)
    ensures var Link(m, s) := w[n][i];
            && Port(w, m, s) && s < |far[m]|
            && (x in Provides(own, w, t, n, i) <==> x in far[m][s] && x in own)
            && (x in Provides(own, w, t, n, i) ==> Provides(own, w, t, n, i)[x] == Dist(w, far, m, s, x))
  {
    LinkFacts(w, far, n, i);
    var sources := Sources(n, n in own, w[n], t[n], i);
    ProvidesContents(sources, x);
    if x in UpdateProvides(sources) {
      var p :| p in sources && x in sources[p] && UpdateProvides(sources)[x] == sources[p][x] + 1;
      SourceIsRight(own, w, far, t, n, i, p, x);
    } else if x in own && x in Behind(far, n, i) {
      var p := SourceExists(own, w, far, t, n, i, x);
    }
  }
}
