/** Journals as the objects they are: every method is tied to the value-level functions. An insert forwards by calling
    the peers, which may call back, and connecting adds a port on each side. */
module Journals {
  import opened Clocks
  import opened Entries
  import opened Flooding
  import opened Listings
  import opened Deltas
  import opened Handshakes
  import opened Runs
  import opened Joins
  import Agreement

  /** A connection slot: the peer and the port it gave us there. Slot 0 has no peer. */
  datatype Port = Port(peer: Journal?, far: nat)

  function LinkOf(p: Port): Link { if p.peer == null then NoLink else Link(p.peer.id, p.far) }

  /** The journals of a network, by id. */
  type Net = map<Id, Journal>

  /** The objects of `net` are in state `s` and connected as `w` says. */
  ghost predicate Shows(net: Net, w: Wiring, s: World)
    reads net.Values
  {
    && Wired(w) && w.Keys == net.Keys && s.Keys == net.Keys
    && forall n | n in net :: net[n].id == n && net[n].State() == s[n] && ShowsPorts(net, net[n].ports, w[n])
  }

  ghost predicate ShowsPorts(net: Net, ports: seq<Port>, links: seq<Link>) {
    && |ports| == |links|
    && forall i | 0 <= i < |ports| ::
         links[i] == LinkOf(ports[i]) && (ports[i].peer != null ==> ports[i].peer.id in net && net[ports[i].peer.id] == ports[i].peer)
  }

  class Journal {
    const id: Id
    const plugin: Plugin
    var clock: Clock
    var saved: seq<Entry>
    var ports: seq<Port>

    constructor (id: Id, plugin: Plugin)
      ensures this.id == id && this.plugin == plugin
      ensures clock == map[] && saved == [] && ports == [Port(null, 0)]
    {
      this.id, this.plugin := id, plugin;
      clock, saved, ports := map[], [], [Port(null, 0)];
    }

    function State(): Replica
      reads this
    {
      Replica(plugin, clock, saved)
    }

    /** This object is a node of the network shown. */
    ghost predicate In(net: Net, w: Wiring, s: World)
      reads net.Values
    {
      id in net && net[id] == this && Shows(net, w, s)
    }

    method Save(e: Entry) returns (ok: bool)
      modifies this`saved
      ensures ok == !SaveFails(old(State()), e)
      ensures saved == if ok then old(saved) + [e] else old(saved)
    {
      ok := !(plugin.Cache? && HasStamp(saved, e.clock));
      if ok {
        saved := saved + [e];
      }
    }

    /** JournalBase::insert: admission and save, then the broker's part, which refuses a port that does not exist. */
    method Insert(e: Entry, source: nat, ghost net: Net, ghost w: Wiring, ghost s: World) returns (result: Clock)
      requires In(net, w, s)
      modifies net.Values`clock, net.Values`saved
      ensures In(net, w, Received(w, s, id, source, e))
      ensures result == if source < |w[id]| && Admits(s[id], e) then Merge(s[id].clock, e.clock) else INVALID
      ensures source >= |w[id]| ==> clock == old(clock) && saved == if Admits(s[id], e) then old(saved) + [e] else old(saved)
      decreases Left(s, e), 0
    {
      assert |ports| == |w[id]| by { assert ShowsPorts(net, ports, w[id]); }
      var ok := LetIn(e, net, w, s);
      if !ok || source >= |ports| {
        return INVALID;
      }
      TakeLeavesFewer(s, id, e);
      result := Forward(e, source, net, w, s[id := Stored(s[id], e)], s[id := Take(s[id], e)]);
    }

    /** The admission test and the save. */
    method LetIn(e: Entry, ghost net: Net, ghost w: Wiring, ghost s: World) returns (ok: bool)
      requires In(net, w, s)
      modifies this`saved
      ensures ok == Admits(s[id], e)
      ensures In(net, w, if ok then s[id := Stored(s[id], e)] else s)
    {
      if !IsNext(e.clock, clock, e.data.id) {
        return false;
      }
      ok := Save(e);
    }

    /** Broker::insert: merge the clock, then forward. `s` is the network before the merge, `t` after it. */
    method Forward(e: Entry, source: nat, ghost net: Net, ghost w: Wiring, ghost s: World, ghost t: World) returns (result: Clock)
      requires In(net, w, s) && source < |w[id]|
      requires t == s[id := s[id].(clock := Merge(s[id].clock, e.clock))] && id !in Ready(t, e)
      modifies net.Values`clock, net.Values`saved
      ensures In(net, w, Flooding.Forward(w, t, id, source, e, 0))
      ensures result == t[id].clock
      decreases Left(t, e), 4
    {
      clock := Merge(clock, e.clock);
      SendToOthers(e, source, net, w, t);
      OwnStateStays(w, t, id, source, e);
      result := clock;
    }

    /** The loop of Broker::insert: the entry goes to every port but the one it came from. */
    method SendToOthers(e: Entry, source: nat, ghost net: Net, ghost w: Wiring, ghost t: World)
      requires In(net, w, t) && source < |w[id]| && id !in Ready(t, e)
      modifies net.Values`clock, net.Values`saved
      ensures In(net, w, Flooding.Forward(w, t, id, source, e, 0))
      decreases Left(t, e), 3
    {
      assert |ports| == |w[id]| by { assert ShowsPorts(net, ports, w[id]); }
      ghost var r := t;
      for i := 0 to |ports|
        invariant Midway(net, w, t, source, e, i, r)
      {
        r := SendUnlessSource(i, source, e, net, w, t, r);
      }
    }

    /** The loop has reached port `i` with the network in state `r`. */
    ghost predicate Midway(net: Net, w: Wiring, t: World, source: nat, e: Entry, i: nat, r: World)
      reads net.Values
    {
      In(net, w, r) && Halfway(w, t, id, source, e, i, r)
    }

    /** One turn of that loop. */
    method SendUnlessSource(i: nat, source: nat, e: Entry, ghost net: Net, ghost w: Wiring, ghost t: World, ghost s: World)
        returns (ghost r: World)
      requires Midway(net, w, t, source, e, i, s) && i < |w[id]|
      modifies net.Values`clock, net.Values`saved
      ensures Midway(net, w, t, source, e, i + 1, r)
      decreases Left(t, e), 2
    {
      assert |ports| == |w[id]| by { assert ShowsPorts(net, ports, w[id]); }
      HalfwayStep(w, t, id, source, e, i, s);
      r := s;
      if i != source {
        Send(i, e, net, w, s);
        r := Sent(w, s, w[id][i], e);
      }
    }

    /** Connection::insert: nothing without a peer, else the peer's insert on the port it gave us. */
    method Send(i: nat, e: Entry, ghost net: Net, ghost w: Wiring, ghost s: World)
      requires In(net, w, s) && i < |ports|
      modifies net.Values`clock, net.Values`saved
      ensures i < |w[id]| && (w[id][i].Link? ==> w[id][i].peer in s)
      ensures In(net, w, Sent(w, s, w[id][i], e))
      decreases Left(s, e), 1
    {
      PeerPort(net, w, s, id, i);
      if ports[i].peer != null {
        var ignored := ports[i].peer.Insert(e, ports[i].far, net, w, s);
      }
    }

    /** BrokerBase::append; replace and erase are appends of an altering record. */
    method Append(data: Data, ghost net: Net, ghost w: Wiring, ghost s: World) returns (ok: bool)
      requires In(net, w, s)
      modifies net.Values`clock, net.Values`saved
      ensures In(net, w, Agreement.LocalAppend(w, s, id, data))
      ensures ok <==> Admits(s[id], Stamped(s[id], data)) && Valid(Tick(s[id].clock, data.id))
    {
      OwnSlot(w, id);
      TickIsNext(clock, data.id);
      var result := Insert(Entry(Tick(clock, data.id), data), 0, net, w, s);
      ok := Valid(result);
    }

    method Replace(value: int, altered: Clock, ghost net: Net, ghost w: Wiring, ghost s: World) returns (ok: bool)
      requires In(net, w, s)
      modifies net.Values`clock, net.Values`saved
      ensures In(net, w, Agreement.LocalAppend(w, s, id, Data(id, value, altered)))
      ensures ok <==> Admits(s[id], Stamped(s[id], Data(id, value, altered))) && Valid(Tick(s[id].clock, id))
    {
      ok := Append(Data(id, value, altered), net, w, s);
    }

    method Erase(altered: Clock, ghost net: Net, ghost w: Wiring, ghost s: World) returns (ok: bool)
      requires In(net, w, s)
      modifies net.Values`clock, net.Values`saved
      ensures In(net, w, Agreement.LocalAppend(w, s, id, Data(id, 0, altered)))
      ensures ok <==> Admits(s[id], Stamped(s[id], Data(id, 0, altered))) && Valid(Tick(s[id].clock, id))
    {
      ok := Append(Data(id, 0, altered), net, w, s);
    }

    /** BrokerBase::insert of a list: one by one, whatever the outcome of each. */
    method InsertBatch(list: seq<Entry>, source: nat, ghost net: Net, ghost w: Wiring, ghost s: World) returns (result: Clock)
      requires In(net, w, s) && source < |w[id]|
      modifies net.Values`clock, net.Values`saved
      ensures In(net, w, InsertAll(w, s, id, source, list))
      ensures result == clock
    {
      ghost var r := s;
      for i := 0 to |list|
        invariant In(net, w, r)
        invariant InsertAll(w, r, id, source, list[i..]) == InsertAll(w, s, id, source, list)
      {
        assert list[i..][0] == list[i] && list[i..][1..] == list[i + 1..];
        var ignored := Insert(list[i], source, net, w, r);
        r := Flooding.Insert(w, r, id, source, list[i]);
      }
      result := clock;
    }

    /** JournalBase::query: what `from` does not cover, in the order the store lists it. */
    method Query(from: Clock) returns (list: seq<Entry>)
      ensures list == Deltas.Query(Listing(State()), from)
    {
      list := Deltas.Collect(Listing(State()), from);
    }

    /** Broker::connect between journals: one more port on each side, then the exchange over them. */
    method Connect(peer: Journal, ghost net: Net, ghost w: Wiring, ghost s: World)
        returns (source: nat, theirs: seq<Entry>, mine: seq<Entry>)
      requires In(net, w, s) && peer.id in net && net[peer.id] == peer && peer != this
      modifies net.Values`ports, net.Values`clock, net.Values`saved
      ensures source == |w[id]| && Wired(Join(w, id, peer.id))
      ensures theirs == Deltas.Query(Listing(s[peer.id]), s[id].clock)
      ensures mine == Deltas.Query(Listing(s[id]), s[peer.id].clock)
      ensures In(net, Join(w, id, peer.id),
                 Handshakes.Exchange(Join(w, id, peer.id), s, id, source, peer.id, |w[peer.id]|, theirs, mine))
    {
      source := LinkTo(peer, net, w, s);
      theirs, mine := Exchange(source, peer, net, Join(w, id, peer.id), s);
    }

    /** The new ports, each knowing the other's number. */
    method LinkTo(peer: Journal, ghost net: Net, ghost w: Wiring, ghost s: World) returns (source: nat)
      requires In(net, w, s) && peer.id in net && net[peer.id] == peer && peer != this
      modifies this`ports, peer`ports
      ensures source == |w[id]| && ports == old(ports) + [Port(peer, |w[peer.id]|)]
      ensures In(net, Join(w, id, peer.id), s)
    {
      assert ShowsPorts(net, ports, w[id]) && ShowsPorts(net, peer.ports, w[peer.id]);
      PortAdded(net, ports, w[id], Port(peer, |w[peer.id]|));
      PortAdded(net, peer.ports, w[peer.id], Port(this, |w[id]|));
      JoinIsWired(w, id, peer.id);
      source := |ports|;
      ports, peer.ports := ports + [Port(peer, |peer.ports|)], peer.ports + [Port(this, source)];
      OthersShow(net, w, s, id, peer.id);
    }

    /** The exchange of entries in Broker::connect, over the port just opened. */
    method Exchange(k: nat, peer: Journal, ghost net: Net, ghost w: Wiring, ghost s: World)
        returns (theirs: seq<Entry>, mine: seq<Entry>)
      requires In(net, w, s) && k < |ports| && ports[k].peer == peer
      modifies net.Values`clock, net.Values`saved
      ensures peer.id in s && k < |ports| == |w[id]| && w[id][k].Link?
      ensures theirs == Deltas.Query(Listing(s[peer.id]), s[id].clock)
      ensures mine == Deltas.Query(Listing(s[id]), s[peer.id].clock)
      ensures In(net, w, Handshakes.Exchange(w, s, id, k, peer.id, w[id][k].far, theirs, mine))
    {
      PeerPort(net, w, s, id, k);
      mine := Query(peer.clock);
      theirs := peer.Query(clock);
      if |theirs| > 0 {
        var ignored := InsertBatch(theirs, k, net, w, s);
      }
      if |mine| > 0 {
        var ignored := peer.InsertBatch(mine, ports[k].far, net, w, InsertAll(w, s, id, k, theirs));
      }
    }
  }

  /** An insert on any port. On one that does not exist the entry is saved and goes no further, and is not counted. */
  ghost function Received(w: Wiring, s: World, n: Id, source: nat, e: Entry): World
    requires Wired(w) && w.Keys == s.Keys && n in s
  {
    if source < |w[n]| || !Admits(s[n], e) then Flooding.Insert(w, s, n, source, e)
    else s[n := Stored(s[n], e)]
  }

  function Stored(r: Replica, e: Entry): Replica { r.(saved := r.saved + [e]) }

  lemma PortAdded(net: Net, ports: seq<Port>, links: seq<Link>, port: Port)
    requires ShowsPorts(net, ports, links) && port.peer != null && port.peer.id in net && net[port.peer.id] == port.peer
    ensures ShowsPorts(net, ports + [port], links + [LinkOf(port)])
  {}

  lemma OthersShow(net: Net, w: Wiring, s: World, a: Id, b: Id)
    requires a in net && b in net && a != b && w.Keys == net.Keys && s.Keys == net.Keys && Wired(Join(w, a, b))
    requires forall n | n in net :: net[n].id == n && net[n].State() == s[n] && ShowsPorts(net, net[n].ports, Join(w, a, b)[n])
    ensures Shows(net, Join(w, a, b), s)
  {}

  ghost function Sent(w: Wiring, s: World, link: Link, e: Entry): World
    requires Wired(w) && w.Keys == s.Keys && (link.Link? ==> link.peer in s)
  {
    match link
    case NoLink => s
    case Link(m, far) => Flooding.Insert(w, s, m, far, e)
  }

  /** One turn of the forwarding loop. */
  ghost function Turn(w: Wiring, s: World, n: Id, source: nat, e: Entry, i: nat): World
    requires Wired(w) && w.Keys == s.Keys && n in s && i < |w[n]| && (w[n][i].Link? ==> w[n][i].peer in s)
  {
    if i == source then s else Sent(w, s, w[n][i], e)
  }

  /** The loop has reached port `i` with the network in state `r`. */
  ghost predicate Halfway(w: Wiring, t: World, n: Id, source: nat, e: Entry, i: nat, r: World) {
    && Wired(w) && w.Keys == t.Keys == r.Keys && n in t && i <= |w[n]|
    && Left(r, e) <= Left(t, e)
    && Flooding.Forward(w, r, n, source, e, i) == Flooding.Forward(w, t, n, source, e, 0)
  }

  lemma HalfwayStep(w: Wiring, t: World, n: Id, source: nat, e: Entry, i: nat, s: World)
    requires Halfway(w, t, n, source, e, i, s) && i < |w[n]|
    ensures w[n][i].Link? ==> w[n][i].peer in s
    ensures Halfway(w, t, n, source, e, i + 1, Turn(w, s, n, source, e, i))
  {
    if w[n][i].Link? {
      assert LinkOk(w, n, i);
      SubsetIsNoLarger(Ready(Turn(w, s, n, source, e, i), e), Ready(s, e));
    }
  }

  /** How many journals would still accept `e`. */
  ghost function Left(s: World, e: Entry): nat { |Ready(s, e)| }

  lemma TakeLeavesFewer(s: World, n: Id, e: Entry)
    requires n in s && Admits(s[n], e)
    ensures Left(s[n := Take(s[n], e)], e) < Left(s, e)
    ensures n !in Ready(s[n := Take(s[n], e)], e)
  {
    TakeOnce(s, n, e);
  }

  lemma SubsetIsNoLarger(x: set<Id>, y: set<Id>)
    requires x <= y
    ensures |x| <= |y|
  {
    assert y == x + (y - x);
  }

  lemma OwnStateStays(w: Wiring, t: World, n: Id, source: nat, e: Entry)
    requires Wired(w) && w.Keys == t.Keys && n in t && n !in Ready(t, e)
    ensures Flooding.Forward(w, t, n, source, e, 0)[n] == t[n]
  {
    ForwardTakes(w, t, n, source, e, 0);
  }

  lemma OwnSlot(w: Wiring, n: Id)
    requires Wired(w) && n in w
    ensures |w[n]| > 0
  {}

  lemma PeerPort(net: Net, w: Wiring, s: World, n: Id, i: nat)
    requires Shows(net, w, s) && n in net && i < |net[n].ports|
    ensures i < |w[n]| && w[n][i] == LinkOf(net[n].ports[i])
    ensures var Port(peer, far) := net[n].ports[i];
            peer != null ==> peer.id in net && net[peer.id] == peer && far < |w[peer.id]|
  {
    assert ShowsPorts(net, net[n].ports, w[n]);
    if net[n].ports[i].peer != null {
      assert LinkOk(w, n, i);
    }
  }
}
