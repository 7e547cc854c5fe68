/** Relaying data to the journal it is for: each broker follows its smallest distance. */
module Relays {
  import opened Clocks
  import opened Entries
  import opened Flooding
  import opened Listings
  import opened Forests
  import opened Tables
  import opened Hubs
  import opened Agreement

  datatype Choice = Here | Through(port: nat, distance: nat) | Nowhere

  /** The search of Broker::relay over the ports in ascending order; `best` is the nearest so far. */
  function Choose(ports: seq<nat>, sources: map<nat, Table>, author: Id, sender: nat, best: Choice): Choice
    requires forall p | p in ports :: p in sources
    decreases ports
  {
    if ports == [] then best
    else
      var p := ports[0];
      if (sender > 0 && p == sender) || author !in sources[p] then Choose(ports[1..], sources, author, sender, best)
      else if sources[p][author] == 0 then Here
      else
        var nearer := best.Nowhere? || (best.Through? && sources[p][author] < best.distance);
        Choose(ports[1..], sources, author, sender, if nearer then Through(p, sources[p][author]) else best)
  }

  function NextHop(own: set<Id>, w: Wiring, t: Held, n: Id, author: Id, sender: nat): Choice
    requires n in w && n in t && |w[n]| == |t[n]|
  {
    var sources := Sources(n, n in own, w[n], t[n], 0);
    SortedIdsAreAscending(sources.Keys);
    Choose(SortedIds(sources.Keys), sources, author, sender, Nowhere)
  }

  /** Where the data ends up, and after how many forwards. */
  datatype Outcome = Inserted(at: Id, hops: nat) | NoRoute

  lemma {:induction false} ChooseNone(ports: seq<nat>, sources: map<nat, Table>, author: Id, sender: nat, best: Choice)
    requires forall p | p in ports :: p in sources && (author !in sources[p] || (sender > 0 && p == sender))
    ensures Choose(ports, sources, author, sender, best) == best
  {
    if ports != [] {
      assert ports[0] in ports;
      ChooseNone(ports[1..], sources, author, sender, best);
    }
  }

  lemma {:induction false} ChooseOnly(ports: seq<nat>, sources: map<nat, Table>, author: Id, sender: nat, p: nat)
    requires StrictlyAscending(ports) && p in ports && p in sources && author in sources[p] && !(sender > 0 && p == sender)
    requires forall q | q in ports :: q in sources && (q == p || author !in sources[q] || (sender > 0 && q == sender))
    ensures Choose(ports, sources, author, sender, Nowhere) ==
            if sources[p][author] == 0 then Here else Through(p, sources[p][author])
    decreases ports
  {
    var q, rest := ports[0], ports[1..];
    assert q in ports && forall x :: x in ports <==> x == q || x in rest;
    assert forall i, j | 0 <= i < j < |rest| :: rest[i] == ports[i + 1] && rest[j] == ports[j + 1];
    if q == p {
      forall x | x in rest ensures x != p {
        var j :| 0 <= j < |rest| && rest[j] == x;
        assert ports[j + 1] == x;
      }
      ChooseNone(rest, sources, author, sender, Through(p, sources[p][author]));
    } else {
      ChooseOnly(rest, sources, author, sender, p);
    }
  }

  /** With exact tables a broker keeps what is its own, sends on what lies beyond a port other than the
      sender's through that port, and refuses the rest. */
  lemma NextHopOnExact(own: set<Id>, w: Wiring, far: Sides, t: Held, n: Id, author: Id, sender: nat)
    requires Forest(w, far) && Fits(w, t) && AllExact(own, w, far, t) && n in w
    ensures author == n && n in own ==> NextHop(own, w, t, n, author, sender) == Here
    ensures author in own && author != n && author in Tree(far, n) && (sender == 0 || PortTo(far, n, author) != sender) ==>
              NextHop(own, w, t, n, author, sender) == Through(PortTo(far, n, author), Hops(w, far, n, author))
    ensures author !in own || author !in Tree(far, n) ||
            (author != n && sender > 0 && PortTo(far, n, author) == sender) ==>
              NextHop(own, w, t, n, author, sender) == Nowhere
  {
    var sources := Sources(n, n in own, w[n], t[n], 0);
    var ports := SortedIds(sources.Keys);
    SortedIdsAreAscending(sources.Keys);
    assert NodeOk(w, far, n);
    forall p | p in ports && author in sources[p] ensures IsSource(own, w, far, n, author, p, sources[p][author]) {
      if p > 0 {
        assert Port(w, n, p) && IsExact(own, w, far, t, n, p);
        PortToIsUnique(w, far, n, author, p);
      }
    }
    if author in own && author in Tree(far, n) {
      if author == n {
        assert 0 in sources && author in sources[0];
        ChooseOnly(ports, sources, author, sender, 0);
      } else {
        var p := PortTo(far, n, author);
        PortToIsUnique(w, far, n, author, p);
        assert IsExact(own, w, far, t, n, p);
        assert author in t[n][p];
        if sender > 0 && p == sender {
          ChooseNone(ports, sources, author, sender, Nowhere);
        } else {
          ChooseOnly(ports, sources, author, sender, p);
        }
      }
    } else {
      ChooseNone(ports, sources, author, sender, Nowhere);
    }
  }

  /** The only source that can name `author` is the broker itself or the port that leads there. */
  ghost predicate IsSource(own: set<Id>, w: Wiring, far: Sides, n: Id, author: Id, p: nat, d: nat)
    requires Forest(w, far) && n in w
  {
    && author in own && author in Tree(far, n) && d == Hops(w, far, n, author)
    && p == if author == n then 0 else PortTo(far, n, author)
  }

  ghost predicate Exactly(own: set<Id>, w: Wiring, far: Sides, t: Held) {
    Forest(w, far) && Fits(w, t) && AllExact(own, w, far, t)
  }

  /** What is left to go, if there is a way. */
  ghost function Toward(w: Wiring, far: Sides, n: Id, author: Id): nat
    requires Forest(w, far) && n in w
  {
    if author in Tree(far, n) then Hops(w, far, n, author) else 0
  }

  /** A forward strictly shortens the way, and the receiver's port for the sender does not lead to the goal. */
  lemma ForwardApproaches(own: set<Id>, w: Wiring, far: Sides, t: Held, n: Id, author: Id, sender: nat)
    requires Exactly(own, w, far, t) && n in w && NextHop(own, w, t, n, author, sender).Through?
    ensures var i := NextHop(own, w, t, n, author, sender).port;
            && Port(w, n, i) && w[n][i].peer in w && w[n][i].far > 0
            && author in own && author in Tree(far, n) && author in Tree(far, w[n][i].peer)
            && Hops(w, far, n, author) == 1 + Hops(w, far, w[n][i].peer, author)
            && (author != w[n][i].peer ==> PortTo(far, w[n][i].peer, author) != w[n][i].far)
  {
    NextHopOnExact(own, w, far, t, n, author, sender);
    var i := NextHop(own, w, t, n, author, sender).port;
    PortToIsUnique(w, far, n, author, i);
    LinkFacts(w, far, n, i);
    NeighbourHops(w, far, n, i, author);
    if author != w[n][i].peer {
      Ahead(w, far, n, i, author);
    }
  }

  /** Broker::relay at `n`, from port `sender` (0 for a caller), for the journal `author`. */
  ghost function Relay(own: set<Id>, w: Wiring, far: Sides, t: Held, n: Id, author: Id, sender: nat): Outcome
    requires Exactly(own, w, far, t) && n in w
    decreases Toward(w, far, n, author)
  {
    match NextHop(own, w, t, n, author, sender)
    case Here => Inserted(n, 0)
    case Nowhere => NoRoute
    case Through(i, _) =>
      ForwardApproaches(own, w, far, t, n, author, sender);
      var r := Relay(own, w, far, t, w[n][i].peer, author, w[n][i].far);
      if r.Inserted? then Inserted(r.at, r.hops + 1) else NoRoute
  }

  lemma {:induction false} RelayArrives(own: set<Id>, w: Wiring, far: Sides, t: Held, n: Id, author: Id, sender: nat)
    requires Exactly(own, w, far, t) && n in w && author in own && author in Tree(far, n)
    requires sender == 0 || author == n || PortTo(far, n, author) != sender
    ensures Relay(own, w, far, t, n, author, sender) == Inserted(author, Hops(w, far, n, author))
    decreases Hops(w, far, n, author)
  {
    NextHopOnExact(own, w, far, t, n, author, sender);
    if author != n {
      ForwardApproaches(own, w, far, t, n, author, sender);
      var i := PortTo(far, n, author);
      RelayArrives(own, w, far, t, w[n][i].peer, author, w[n][i].far);
    }
  }

  lemma RelayFindsNoRoute(own: set<Id>, w: Wiring, far: Sides, t: Held, n: Id, author: Id, sender: nat)
    requires Exactly(own, w, far, t) && n in w && !(author in own && author in Tree(far, n))
    ensures Relay(own, w, far, t, n, author, sender) == NoRoute
  {
    NextHopOnExact(own, w, far, t, n, author, sender);
  }

  /** JournalBase::relay: id 0 stands for the journal asked. */
  function Addressee(own: set<Id>, n: Id, data: Data): Data { if data.id == 0 && n in own then data.(id := n) else data }

  /** The journals among the brokers. */
  ghost predicate Owns(own: set<Id>, s: Nodes) { forall n | n in s :: n in own <==> s[n].Store? }

  /** The state of the brokers after a relay. */
  ghost function RelayData(own: set<Id>, w: Wiring, far: Sides, t: Held, s: Nodes, n: Id, data: Data): Nodes
    requires Exactly(own, w, far, t) && n in w && w.Keys == s.Keys
  {
    var d := Addressee(own, n, data);
    match Relay(own, w, far, t, n, d.id, 0)
    case Inserted(at, _) => if at in s then AppendAt(w, far, s, at, d) else s
    case NoRoute => s
  }

  /** Relay on a forest with exact tables: data for a journal of the same tree reaches it, unchanged, after exactly
      hop-count forwards and is appended there; id 0 books at the journal asked itself; otherwise nothing changes. */
  lemma RelayIsAppendAtOwner(own: set<Id>, w: Wiring, far: Sides, t: Held, s: Nodes, n: Id, data: Data)
    requires Exactly(own, w, far, t) && n in w && w.Keys == s.Keys && Owns(own, s)
    ensures data.id == 0 && n in own ==>
              && Relay(own, w, far, t, n, n, 0) == Inserted(n, 0) && s[n].Store?
              && RelayData(own, w, far, t, s, n, data) == AppendAt(w, far, s, n, Data(n, data.value, data.alters))
    ensures data.id == 0 && n !in own && 0 !in own ==> RelayData(own, w, far, t, s, n, data) == s
    ensures data.id != 0 && data.id in own && data.id in Tree(far, n) ==>
              && Relay(own, w, far, t, n, data.id, 0) == Inserted(data.id, Hops(w, far, n, data.id))
              && data.id in s && s[data.id].Store?
              && RelayData(own, w, far, t, s, n, data) == AppendAt(w, far, s, data.id, data)
    ensures data.id != 0 && !(data.id in own && data.id in Tree(far, n)) ==>
              Relay(own, w, far, t, n, data.id, 0) == NoRoute && RelayData(own, w, far, t, s, n, data) == s
  {
    assert n in Tree(far, n) && Hops(w, far, n, n) == 0;
    RelayReaches(own, w, far, t, s, n, data, Addressee(own, n, data));
  }

  lemma RelayReaches(own: set<Id>, w: Wiring, far: Sides, t: Held, s: Nodes, n: Id, data: Data, d: Data)
    requires Exactly(own, w, far, t) && n in w && w.Keys == s.Keys && Owns(own, s) && d == Addressee(own, n, data)
    ensures if d.id in own && d.id in Tree(far, n) then
              && Relay(own, w, far, t, n, d.id, 0) == Inserted(d.id, Hops(w, far, n, d.id))
              && d.id in s && s[d.id].Store? && RelayData(own, w, far, t, s, n, data) == AppendAt(w, far, s, d.id, d)
            else Relay(own, w, far, t, n, d.id, 0) == NoRoute && RelayData(own, w, far, t, s, n, data) == s
  {
    if d.id in own && d.id in Tree(far, n) {
      TreesPartition(w, far, n, d.id);
      RelayArrives(own, w, far, t, n, d.id, 0);
    } else {
      RelayFindsNoRoute(own, w, far, t, n, d.id, 0);
    }
  }

  /** Where all brokers are journals, that append is the flood of an arbitrary graph. */
  lemma RelayIsLocalAppend(own: set<Id>, w: Wiring, far: Sides, t: Held, s: World, n: Id, data: Data)
    requires Exactly(own, w, far, t) && n in w && w.Keys == s.Keys == own
    ensures data.id == 0 ==>
              RelayData(own, w, far, t, Lift(s), n, data) == Lift(LocalAppend(w, s, n, Data(n, data.value, data.alters)))
    ensures data.id != 0 && data.id in Tree(far, n) ==>
              data.id in s && RelayData(own, w, far, t, Lift(s), n, data) == Lift(LocalAppend(w, s, data.id, data))
  {
    RelayIsAppendAtOwner(own, w, far, t, Lift(s), n, data);
    if data.id == 0 {
      JournalsOnlyAppend(w, far, s, n, Data(n, data.value, data.alters));
    } else if data.id in Tree(far, n) {
      TreesPartition(w, far, n, data.id);
      JournalsOnlyAppend(w, far, s, data.id, data);
    }
  }

  // The search for the next hop, on any tables

  /** Port `p` may be followed and lists the author. */
  predicate Leads(sources: map<nat, Table>, author: Id, sender: nat, p: nat) {
    p in sources && author in sources[p] && !(sender > 0 && p == sender)
  }

  /** A distance of 0 decides at once; otherwise the nearest port, and the lowest of the nearest; nothing if none leads there. */
  lemma NextHopIsNearest(own: set<Id>, w: Wiring, t: Held, n: Id, author: Id, sender: nat)
    requires n in w && n in t && |w[n]| == |t[n]|
    ensures var sources := Sources(n, n in own, w[n], t[n], 0);
            match NextHop(own, w, t, n, author, sender)
            case Here => exists p: nat :: Leads(sources, author, sender, p) && sources[p][author] == 0
            case Nowhere => forall p: nat :: !Leads(sources, author, sender, p)
            case Through(p, d) =>
              && Leads(sources, author, sender, p) && sources[p][author] == d
              && forall q: nat | Leads(sources, author, sender, q) :: 0 < d <= sources[q][author] && (q < p ==> d < sources[q][author])
  {
    var sources := Sources(n, n in own, w[n], t[n], 0);
    SortedIdsAreAscending(sources.Keys);
    assert SortedIds(sources.Keys)[0..] == SortedIds(sources.Keys);
    ChoiceIsNearest(SortedIds(sources.Keys), sources, author, sender, 0, Nowhere);
  }

  /** `best` is right for the first `k` ports. */
  ghost predicate BestOf(ports: seq<nat>, sources: map<nat, Table>, author: Id, sender: nat, k: nat, best: Choice)
    requires k <= |ports|
  {
    match best
    case Here => exists p: nat :: Leads(sources, author, sender, p) && sources[p][author] == 0
    case Nowhere => forall i | 0 <= i < k :: !Leads(sources, author, sender, ports[i])
    case Through(p, d) =>
      && Leads(sources, author, sender, p) && sources[p][author] == d && p in ports[..k]
      && forall i | 0 <= i < k && Leads(sources, author, sender, ports[i]) ::
           0 < d <= sources[ports[i]][author] && (ports[i] < p ==> d < sources[ports[i]][author])
  }

  lemma {:induction false} ChoiceIsNearest(ports: seq<nat>, sources: map<nat, Table>, author: Id, sender: nat, k: nat, best: Choice)
    requires StrictlyAscending(ports) && forall p :: p in ports <==> p in sources
    requires k <= |ports| && !best.Here? && BestOf(ports, sources, author, sender, k, best)
    ensures BestOf(ports, sources, author, sender, |ports|, Choose(ports[k..], sources, author, sender, best))
    decreases |ports| - k
  {
    if k < |ports| {
      var p := ports[k];
      assert p in ports && ports[k..][0] == p && ports[k..][1..] == ports[k + 1..] && ports[..k + 1] == ports[..k] + [p];
      if !Leads(sources, author, sender, p) {
        ChoiceIsNearest(ports, sources, author, sender, k + 1, best);
      } else if sources[p][author] != 0 {
        var nearer := best.Nowhere? || sources[p][author] < best.distance;
        ChoiceIsNearest(ports, sources, author, sender, k + 1, if nearer then Through(p, sources[p][author]) else best);
      }
    }
  }
}
