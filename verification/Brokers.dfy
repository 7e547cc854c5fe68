/** Brokers as the objects they are: a clock, a store where the broker is a journal, and a growing list of
    connections, each with the peer, the port it gave us and the table it last sent. Networks are forests of
    hubs and journals; module Journals has the inserts of journals on arbitrary graphs. Every method is tied to
    the value-level functions. */
module Brokers {
  import opened Clocks
  import opened Flooding
  import opened Listings
  import opened Forests
  import opened Tables
  import opened Refreshes
  import opened Joins
  import opened Connects
  import opened Entries
  import opened Hubs
  import opened Meetings
  import opened Meshes
  import opened Exchanges
  import Deltas
  import Relays

  /** Slot 0 has no peer. */
  datatype Connection = Connection(peer: Broker?, source: nat, offers: Table)

  type Net = map<Id, Broker>

  /** The one port whose peer has not told its port number yet, while two brokers connect. */
  datatype Hole = NoHole | Hole(at: Id, port: nat)

  /** The slots of one broker are as the wiring and the tables say. */
  ghost predicate ShowsSlots(net: Net, slots: seq<Connection>, n: Id, links: seq<Link>, tables: seq<Table>, hole: Hole) {
    && |slots| == |links| == |tables|
    && forall i: nat | i < |slots| :: ShowsSlot(net, slots[i], links[i], tables[i], hole == Hole(n, i))
  }

  ghost predicate ShowsSlot(net: Net, slot: Connection, link: Link, table: Table, open: bool) {
    && slot.offers == table
    && (slot.peer == null <==> link.NoLink?)
    && (slot.peer != null ==> link.peer == slot.peer.id && link.peer in net && net[link.peer] == slot.peer &&
                              (open || slot.source == link.far))
  }

  ghost predicate Named(net: Net, own: set<Id>) { forall n | n in net :: net[n].id == n && (net[n].journal <==> n in own) }

  /** The objects of `net` are connected as `w` says and hold the tables `t`. */
  ghost predicate Shows(net: Net, w: Wiring, t: Held, hole: Hole)
    reads net.Values`connections
  {
    && Fits(w, t) && w.Keys == net.Keys
    && forall n | n in net :: ShowsSlots(net, net[n].connections, n, w[n], t[n], hole)
  }

  /** The objects have the clocks and stores of `s`. */
  ghost predicate ShowsNodes(net: Net, s: Nodes)
    reads net.Values`clock, net.Values`saved
  {
    s.Keys == net.Keys && forall n | n in net :: net[n].State() == s[n]
  }

  /** The cascade from `m` does not come near the open port. */
  ghost predicate Away(far: Sides, hole: Hole, m: Id, ignore: nat)
    requires m in far
  {
    hole.Hole? ==> hole.at !in Behind(far, m, ignore)
  }

  /** `out` holds what the first `k` ports offer. */
  ghost predicate Listed(out: map<nat, Table>, links: seq<Link>, tables: seq<Table>, sender: nat, k: nat)
    requires k <= |links| == |tables|
  {
    && (forall p | p in out :: p < k)
    && forall p: nat | p < k ::
         (p in out <==> !(p > 0 && p == sender) && links[p].Link? && tables[p] != map[]) && (p in out ==> out[p] == tables[p])
  }

  lemma ListedAll(id: Id, journal: bool, out: map<nat, Table>, links: seq<Link>, tables: seq<Table>, sender: nat)
    requires |links| == |tables| && Listed(out, links, tables, sender, |links|)
    ensures var self: Table := map[id := 0];
            Tables.Sources(id, journal, links, tables, sender) == if journal then out[0 := self] else out
  {}

  lemma MergeStep(ports: seq<nat>, k: nat, sources: map<nat, Table>, out: Table)
    requires k < |ports| && forall p | p in ports[k..] :: p in sources
    ensures ports[k] in sources && forall p | p in ports[k + 1..] :: p in sources
    ensures MergePorts(ports[k..], sources, out) == MergePorts(ports[k + 1..], sources, Tables.Farther(sources[ports[k]]) + out)
  {
    assert ports[k..] == [ports[k]] + ports[k + 1..];
  }

  /** Storing a message's table in its slot. */
  lemma StoredShows(net: Net, w: Wiring, t: Held, hole: Hole, m: Id, s: nat, slots: seq<Connection>, table: Table)
    requires Shows(net, w, t, hole) && Port(w, m, s) && |slots| == |w[m]|
    requires ShowsSlots(net, slots, m, w[m], t[m], hole)
    ensures Fits(w, t[m := t[m][s := table]])
    ensures ShowsSlots(net, slots[s := slots[s].(source := w[m][s].far, offers := table)], m, w[m], t[m][s := table], hole)
  {
    assert ShowsSlot(net, slots[s], w[m][s], t[m][s], hole == Hole(m, s));
    var stored := slots[s := slots[s].(source := w[m][s].far, offers := table)];
    forall i: nat | i < |stored| ensures ShowsSlot(net, stored[i], w[m][i], t[m][s := table][i], hole == Hole(m, i)) {
      assert ShowsSlot(net, slots[i], w[m][i], t[m][i], hole == Hole(m, i));
    }
  }

  /** What one turn of the refresh loop at `m` contributes. */
  lemma Turn(own: set<Id>, w: Wiring, far: Sides, t: Held, m: Id, ignore: nat, i: nat, whole: Held, hole: Hole)
    requires Forest(w, far) && Fits(w, t) && m in w && 1 <= i < |w[m]| && Away(far, hole, m, ignore)
    requires whole == RefreshOthers(own, w, far, t, m, ignore, i)
    ensures i == ignore || w[m][i].NoLink? ==> whole == RefreshOthers(own, w, far, t, m, ignore, i + 1)
    ensures i != ignore && w[m][i].Link? ==>
              var Link(k, s) := w[m][i];
              && Port(w, k, s) && w[k][s].far == i && Behind(far, k, s) < Behind(far, m, ignore)
              && s > 0 && Away(far, hole, k, s) && hole != Hole(m, i)
              && whole == RefreshOthers(own, w, far, Refreshes.Refresh(own, w, far, t, k, s, Provides(own, w, t, m, i)), m, ignore, i + 1)
  {
    if i != ignore && w[m][i].Link? {
      LinkFacts(w, far, m, i);
      BehindNarrows(w, far, m, ignore, i);
    }
  }

  /** `a` has added its slot for `b` and knows no port number yet; `b` has not added its own. */
  ghost predicate HalfLinked(net: Net, w: Wiring, t: Held, a: Id, b: Id)
    reads net.Values`connections
  {
    && Fits(w, t) && w.Keys == net.Keys && a in net && b in net && a != b
    && ShowsSlots(net, net[b].connections, b, w[b], t[b], NoHole)
    && forall n | n in net && n != b ::
         ShowsSlots(net, net[n].connections, n, Join(w, a, b)[n], AddSlots(t, a, b)[n], Hole(a, |w[a]|))
  }

  lemma SlotAdded(net: Net, slots: seq<Connection>, n: Id, links: seq<Link>, tables: seq<Table>, hole: Hole, hole': Hole,
                  slot: Connection, link: Link, table: Table)
    requires ShowsSlots(net, slots, n, links, tables, hole)
    requires hole == NoHole || hole == hole'
    requires ShowsSlot(net, slot, link, table, hole' == Hole(n, |slots|))
    ensures ShowsSlots(net, slots + [slot], n, links + [link], tables + [table], hole')
  {
    forall i: nat | i < |slots| + 1
      ensures ShowsSlot(net, (slots + [slot])[i], (links + [link])[i], (tables + [table])[i], hole' == Hole(n, i))
    {
      if i < |slots| {
        assert ShowsSlot(net, slots[i], links[i], tables[i], hole == Hole(n, i));
      }
    }
  }

  lemma BothSlots(net: Net, w: Wiring, t: Held, a: Id, b: Id, table: Table)
    requires Fits(w, t) && w.Keys == net.Keys && a in net && b in net && a != b
    requires ShowsSlots(net, net[b].connections, b, w[b] + [Link(a, |w[a]|)], t[b] + [table], Hole(a, |w[a]|))
    requires forall n | n in net && n != b ::
               ShowsSlots(net, net[n].connections, n, Join(w, a, b)[n], AddSlots(t, a, b)[n], Hole(a, |w[a]|))
    ensures Shows(net, Join(w, a, b), AddSlots(t, a, b)[b := t[b] + [table]], Hole(a, |w[a]|))
  {
    var u := AddSlots(t, a, b)[b := t[b] + [table]];
    forall n | n in net ensures ShowsSlots(net, net[n].connections, n, Join(w, a, b)[n], u[n], Hole(a, |w[a]|)) {
      if n != b {
        assert u[n] == AddSlots(t, a, b)[n];
      }
    }
  }

  lemma AskerIsAway(w: Wiring, far: Sides, t: Held, a: Id, b: Id)
    requires Linkable(w, far, t, a, b)
    ensures Away(JoinFar(far, a, b), Hole(a, |w[a]|), b, |w[b]|) && |Join(w, a, b)[b]| > 1
  {
    NewSideOk(w, far, a, b);
    EndsDiffer(w, far, a, b);
    assert Tree(far, b) == Behind(JoinFar(far, a, b), b, |w[b]|);
    assert a in Tree(far, a);
    assert |w[b]| > 0;
  }

  lemma SlotFilled(t: Held, a: Id, b: Id, q: nat, table: Table)
    requires a in t && b in t && a != b && q == |t[b]|
    ensures q < |AddSlots(t, a, b)[b]|
    ensures AddSlots(t, a, b)[b := AddSlots(t, a, b)[b][q := table]] == AddSlots(t, a, b)[b := t[b] + [table]]
  {
    assert AddSlots(t, a, b)[b][q := table] == t[b] + [table];
  }

  lemma RefreshUnfolds(own: set<Id>, w: Wiring, far: Sides, t: Held, m: Id, s: nat, table: Table, u: Held, whole: Held)
    requires Forest(w, far) && Fits(w, t) && Port(w, m, s) && u == t[m := t[m][s := table]]
    requires whole == Refreshes.Refresh(own, w, far, t, m, s, table)
    ensures Fits(w, u) && |w[m]| > 1 && whole == RefreshOthers(own, w, far, u, m, s, 1)
  {
    LinkFacts(w, far, m, s);
  }

  lemma TheirsIsRefresh(own: set<Id>, w: Wiring, far: Sides, t: Held, a: Id, b: Id, w': Wiring, far': Sides, slots: Held,
                        theirs: Held)
    requires Linkable(w, far, t, a, b) && theirs == Theirs(own, w, far, t, a, b)
    requires w' == Join(w, a, b) && far' == JoinFar(far, a, b) && slots == AddSlots(t, a, b)
    requires Fits(w', slots) && Port(w', b, |w[b]|)
    ensures theirs == Refreshes.Refresh(own, w', far', slots, b, |w[b]|, Provides(own, w', slots, a, |w[a]|))
  {}

  lemma SlotsFit(w: Wiring, far: Sides, t: Held, a: Id, b: Id)
    requires Linkable(w, far, t, a, b)
    ensures Fits(Join(w, a, b), AddSlots(t, a, b)) && Port(Join(w, a, b), b, |w[b]|)
  {}

  /** The table the asker sends goes into the new slot; what follows is the cascade of `Theirs`. */
  lemma AcceptedTables(own: set<Id>, w: Wiring, far: Sides, t: Held, a: Id, b: Id, table: Table, start: Held, theirs: Held)
    requires Linkable(w, far, t, a, b) && start == AddSlots(t, a, b)[b := t[b] + [table]]
    requires table == Provides(own, Join(w, a, b), AddSlots(t, a, b), a, |w[a]|) && theirs == Theirs(own, w, far, t, a, b)
    ensures Fits(Join(w, a, b), start) && |Join(w, a, b)[b]| > 1
    ensures theirs == RefreshOthers(own, Join(w, a, b), JoinFar(far, a, b), start, b, |w[b]|, 1)
  {
    SlotFilled(t, a, b, |w[b]|, table);
    SlotsFit(w, far, t, a, b);
    TheirsIsRefresh(own, w, far, t, a, b, Join(w, a, b), JoinFar(far, a, b), AddSlots(t, a, b), theirs);
    RefreshUnfolds(own, Join(w, a, b), JoinFar(far, a, b), AddSlots(t, a, b), b, |w[b]|, table, start, theirs);
  }

  /** The slots of all brokers but one are untouched. */
  lemma OthersKeepSlots(net: Net, w: Wiring, t: Held, a: Id, b: Id)
    requires Fits(w, t) && w.Keys == net.Keys && a in net && b in net && a != b
    requires forall n | n in net && n != a :: ShowsSlots(net, net[n].connections, n, w[n], t[n], NoHole)
    requires ShowsSlots(net, net[a].connections, a, Join(w, a, b)[a], AddSlots(t, a, b)[a], Hole(a, |w[a]|))
    ensures HalfLinked(net, w, t, a, b)
  {
    forall n | n in net && n != b
      ensures ShowsSlots(net, net[n].connections, n, Join(w, a, b)[n], AddSlots(t, a, b)[n], Hole(a, |w[a]|))
    {
      if n != a {
        OtherHole(net, net[n].connections, n, w[n], t[n], NoHole, Hole(a, |w[a]|));
      }
    }
  }

  /** A hole elsewhere makes no difference. */
  lemma OtherHole(net: Net, slots: seq<Connection>, n: Id, links: seq<Link>, tables: seq<Table>, h1: Hole, h2: Hole)
    requires ShowsSlots(net, slots, n, links, tables, h1)
    requires (h1.Hole? ==> h1.at != n) && (h2.Hole? ==> h2.at != n)
    ensures ShowsSlots(net, slots, n, links, tables, h2)
  {
    forall i: nat | i < |slots| ensures ShowsSlot(net, slots[i], links[i], tables[i], h2 == Hole(n, i)) {
      assert ShowsSlot(net, slots[i], links[i], tables[i], h1 == Hole(n, i));
    }
  }

  lemma SlotClosed(net: Net, slots: seq<Connection>, n: Id, links: seq<Link>, tables: seq<Table>, port: nat,
                   slot: Connection, table: Table)
    requires ShowsSlots(net, slots, n, links, tables, Hole(n, port)) && port < |slots|
    requires ShowsSlot(net, slot, links[port], table, false)
    ensures ShowsSlots(net, slots[port := slot], n, links, tables[port := table], NoHole)
  {
    forall i: nat | i < |slots| ensures ShowsSlot(net, slots[port := slot][i], links[i], tables[port := table][i], false) {
      assert ShowsSlot(net, slots[i], links[i], tables[i], Hole(n, port) == Hole(n, i));
    }
  }

  lemma OthersClosed(net: Net, w: Wiring, t: Held, m: Id, port: nat, table: Table)
    requires Fits(w, t) && w.Keys == net.Keys && m in net && port < |t[m]|
    requires forall n | n in net && n != m :: ShowsSlots(net, net[n].connections, n, w[n], t[n], Hole(m, port))
    requires ShowsSlots(net, net[m].connections, m, w[m], t[m][port := table], NoHole)
    ensures Shows(net, w, t[m := t[m][port := table]], NoHole)
  {
    var u := t[m := t[m][port := table]];
    forall n | n in net ensures ShowsSlots(net, net[n].connections, n, w[n], u[n], NoHole) {
      if n != m {
        OtherHole(net, net[n].connections, n, w[n], t[n], Hole(m, port), NoHole);
      }
    }
  }

  lemma OthersKept(net: Net, w: Wiring, t: Held, m: Id, port: nat, table: Table)
    requires Fits(w, t) && w.Keys == net.Keys && m in net && port < |t[m]|
    requires forall n | n in net && n != m :: ShowsSlots(net, net[n].connections, n, w[n], t[n], NoHole)
    requires ShowsSlots(net, net[m].connections, m, w[m], t[m][port := table], NoHole)
    ensures Shows(net, w, t[m := t[m][port := table]], NoHole)
  {}

  function OneMore(r: Relays.Outcome): Relays.Outcome {
    if r.Inserted? then Relays.Inserted(r.at, r.hops + 1) else Relays.NoRoute
  }

  lemma RelayUnfolds(own: set<Id>, w: Wiring, far: Sides, t: Held, n: Id, goal: Id, sender: nat, choice: Relays.Choice,
                     o: Relays.Outcome)
    requires Relays.Exactly(own, w, far, t) && n in w && choice == Relays.NextHop(own, w, t, n, goal, sender)
    requires o == Relays.Relay(own, w, far, t, n, goal, sender)
    ensures choice.Here? ==> o == Relays.Inserted(n, 0)
    ensures choice.Nowhere? ==> o == Relays.NoRoute
    ensures choice.Through? ==>
              && Port(w, n, choice.port) && goal in own
              && var Link(m, s) := w[n][choice.port];
              && m in w && Relays.Toward(w, far, m, goal) < Relays.Toward(w, far, n, goal)
              && o == OneMore(Relays.Relay(own, w, far, t, m, goal, s))
  {
    if choice.Through? {
      Relays.ForwardApproaches(own, w, far, t, n, goal, sender);
    }
  }

  lemma OwnStateAfter(w: Wiring, far: Sides, s: Nodes, n: Id, source: nat, e: Entry)
    requires Forest(w, far) && w.Keys == s.Keys && n in w && source < |w[n]| && Opens(s[n], e)
    ensures InsertedNodes(w, far, s, n, source, e)[n] == Passed(s[n], e)
  {
    InsertTakesOpen(w, far, s, n, source, e, n);
  }

  /** What an own entry leaves at the broker itself. */
  lemma OwnEntry(w: Wiring, far: Sides, s: Nodes, n: Id, data: Data)
    requires Forest(w, far) && w.Keys == s.Keys && n in w
    ensures var e := Entry(Tick(ClockOf(s[n]), data.id), data);
            && StampAt(s, n, data) == e && AppendAt(w, far, s, n, data) == InsertedNodes(w, far, s, n, 0, e)
            && AppendAt(w, far, s, n, data)[n] ==
               if !Opens(s[n], e) then s[n]
               else if s[n].Hub? then Hub(Merge(s[n].clock, e.clock))
               else Store(Replica(s[n].r.plugin, Merge(s[n].r.clock, e.clock), s[n].r.saved + [e]))
  {
    assert |w[n]| > 0;
    if Opens(s[n], StampAt(s, n, data)) {
      OwnStateAfter(w, far, s, n, 0, StampAt(s, n, data));
    }
  }

  lemma RelayedHere(w: Wiring, far: Sides, t: Held, s: Nodes, n: Id, d: Data)
    requires Forest(w, far) && Fits(w, t) && w.Keys == s.Keys && n in w
    ensures var o := Relays.Inserted(n, 0);
            && RelayedTables(w, far, t, s, o, d) == InsertedTables(w, far, t, s, n, 0, StampAt(s, n, d))
            && RelayedNodes(w, far, s, o, d) == AppendAt(w, far, s, n, d)
  {
    assert |w[n]| > 0;
  }

  lemma NoRouteChangesNothing(w: Wiring, far: Sides, t: Held, s: Nodes, d: Data)
    requires Forest(w, far) && Fits(w, t) && w.Keys == s.Keys
    ensures RelayedTables(w, far, t, s, Relays.NoRoute, d) == t && RelayedNodes(w, far, s, Relays.NoRoute, d) == s
    ensures RelayedClock(s, Relays.NoRoute, d) == INVALID
  {}

  /** The number of forwards does not matter to what is left behind. */
  lemma RelayedOneMore(w: Wiring, far: Sides, t: Held, s: Nodes, o: Relays.Outcome, d: Data)
    requires Forest(w, far) && Fits(w, t) && w.Keys == s.Keys
    ensures RelayedTables(w, far, t, s, OneMore(o), d) == RelayedTables(w, far, t, s, o, d)
    ensures RelayedNodes(w, far, s, OneMore(o), d) == RelayedNodes(w, far, s, o, d)
    ensures RelayedClock(s, OneMore(o), d) == RelayedClock(s, o, d)
  {}

  class Broker {
    const id: Id
    const journal: bool
    const plugin: Plugin
    var clock: Clock
    var saved: seq<Entry>
    var connections: seq<Connection>

    constructor (id: Id, journal: bool, plugin: Plugin)
      ensures this.id == id && this.journal == journal && this.plugin == plugin
      ensures connections == [Connection(null, 0, map[])] && clock == map[] && saved == []
    {
      this.id, this.journal, this.plugin := id, journal, plugin;
      connections, clock, saved := [Connection(null, 0, map[])], map[], [];
    }

    function State(): Node
      reads this`clock, this`saved
    {
      if journal then Store(Replica(plugin, clock, saved)) else Hub(clock)
    }

    ghost predicate In(net: Net, w: Wiring, t: Held, hole: Hole)
      reads net.Values`connections
    {
      id in net && net[id] == this && Shows(net, w, t, hole)
    }

    static method Farther(t: Table) returns (r: Table)
      ensures r == Tables.Farther(t)
    {
      r := map[];
      var left := t.Keys;
      while left != {}
        invariant left <= t.Keys && r.Keys == t.Keys - left
        invariant forall x | x in r :: r[x] == t[x] + 1
        decreases |left|
      {
        var x := Least(left);
        r := r[x := t[x] + 1];
        left := left - {x};
      }
    }

    /** One hop is added to every table, and the lowest port's entry is kept where several offer one. */
    static method UpdateProvides(sources: map<nat, Table>) returns (out: Table)
      ensures out == Tables.UpdateProvides(sources)
    {
      SortedIdsAreAscending(sources.Keys);
      var ports := SortedIds(sources.Keys);
      out := map[];
      for k := 0 to |ports|
        invariant forall p | p in ports[k..] :: p in sources
        invariant MergePorts(ports[k..], sources, out) == Tables.UpdateProvides(sources)
      {
        MergeStep(ports, k, sources, out);
        var table := Farther(sources[ports[k]]);
        out := table + out;
      }
    }

    method Sources(sender: nat, ghost net: Net, ghost links: seq<Link>, ghost tables: seq<Table>, ghost hole: Hole)
        returns (out: map<nat, Table>)
      requires ShowsSlots(net, connections, id, links, tables, hole) && |links| > 0 && links[0].NoLink?
      ensures out == Tables.Sources(id, journal, links, tables, sender)
    {
      out := map[];
      for i := 0 to |connections|
        invariant Listed(out, links, tables, sender, i)
      {
        assert ShowsSlot(net, connections[i], links[i], tables[i], hole == Hole(id, i));
        if i > 0 && i == sender {
          continue;
        }
        var conn := connections[i];
        if conn.peer == null {
          continue;
        }
        if conn.offers == map[] {
          continue;
        }
        out := out[i := conn.offers];
      }
      ListedAll(id, journal, out, links, tables, sender);
      if journal {
        var self: Table := map[id := 0];
        out := out[0 := self];
      }
    }

    /** Broker::refresh: a message from the peer on port `sender`; an invalid port is refused. */
    method Refresh(source: nat, table: Table, sender: nat,
                   ghost net: Net, ghost own: set<Id>, ghost w: Wiring, ghost far: Sides, ghost t: Held, ghost hole: Hole)
        returns (ok: bool)
      requires Named(net, own) && In(net, w, t, hole) && Forest(w, far)
      requires 0 < sender < |w[id]| ==> Port(w, id, sender) && source == w[id][sender].far && Away(far, hole, id, sender)
      modifies net.Values`connections
      ensures ok == (0 < sender < |w[id]|)
      ensures In(net, w, if ok then Refreshes.Refresh(own, w, far, t, id, sender, table) else t, hole)
      decreases Behind(far, id, sender), |w[id]| + 1
    {
      if sender <= 0 || sender >= |connections| {
        return false;
      }
      StoredShows(net, w, t, hole, id, sender, connections, table);
      connections := connections[sender := connections[sender].(source := source, offers := table)];
      ghost var u := t[id := t[id][sender := table]];
      RefreshConnections(sender, net, own, w, far, u, hole);
      ok := true;
    }

    /** The loop over the other ports: each peer is sent what this broker provides there. */
    method RefreshConnections(ignore: nat, ghost net: Net, ghost own: set<Id>, ghost w: Wiring, ghost far: Sides,
                              ghost t: Held, ghost hole: Hole)
      requires Named(net, own) && In(net, w, t, hole) && Forest(w, far) && Away(far, hole, id, ignore)
      modifies net.Values`connections
      ensures In(net, w, RefreshOthers(own, w, far, t, id, ignore, 1), hole)
      decreases Behind(far, id, ignore), |w[id]|
    {
      ghost var r: Held := t;
      ghost var whole := RefreshOthers(own, w, far, t, id, ignore, 1);
      ghost var n := |w[id]|;
      assert |connections| == n by { assert ShowsSlots(net, connections, id, w[id], t[id], hole); }
      for i := 1 to |connections|
        invariant In(net, w, r, hole)
        invariant whole == RefreshOthers(own, w, far, r, id, ignore, i)
      {
        r := RefreshPort(i, ignore, net, own, w, far, r, hole, whole);
      }
    }

    /** One turn of that loop. */
    method RefreshPort(i: nat, ignore: nat, ghost net: Net, ghost own: set<Id>, ghost w: Wiring, ghost far: Sides,
                       ghost t: Held, ghost hole: Hole, ghost whole: Held)
        returns (ghost r: Held)
      requires Named(net, own) && In(net, w, t, hole) && Forest(w, far) && Away(far, hole, id, ignore)
      requires 1 <= i < |w[id]| && whole == RefreshOthers(own, w, far, t, id, ignore, i)
      modifies net.Values`connections
      ensures In(net, w, r, hole) && whole == RefreshOthers(own, w, far, r, id, ignore, i + 1)
      decreases Behind(far, id, ignore), |w[id]|, 0
    {
      Turn(own, w, far, t, id, ignore, i, whole, hole);
      r := t;
      if i == ignore {
        return;
      }
      assert ShowsSlot(net, connections[i], w[id][i], t[id][i], hole == Hole(id, i));
      var conn := connections[i];
      var table := Offer(i, net, own, w, t, hole);
      if conn.peer != null {
        var ignored := conn.peer.Refresh(i, table, conn.source, net, own, w, far, t, hole);
        r := Refreshes.Refresh(own, w, far, t, w[id][i].peer, w[id][i].far, table);
      }
    }

    /** What this broker provides through port `i`. */
    method Offer(i: nat, ghost net: Net, ghost own: set<Id>, ghost w: Wiring, ghost t: Held, ghost hole: Hole)
        returns (table: Table)
      requires Named(net, own) && Wired(w) && In(net, w, t, hole)
      ensures table == Provides(own, w, t, id, i)
    {
      var sources := Sources(i, net, w[id], t[id], hole);
      table := UpdateProvides(sources);
    }

    method Push(from: Broker, port: nat, table: Table, ghost net: Net, ghost own: set<Id>, ghost w: Wiring, ghost t: Held)
        returns (source: nat)
      requires Named(net, own) && id in net && net[id] == this && from.id in net && net[from.id] == from
      requires HalfLinked(net, w, t, from.id, id) && port == |w[from.id]|
      modifies this`connections
      ensures Shows(net, Join(w, from.id, id), AddSlots(t, from.id, id)[id := t[id] + [table]], Hole(from.id, port))
      ensures source == |w[id]|
    {
      source := |connections|;
      var slot := Connection(from, port, table);
      SlotAdded(net, connections, id, w[id], t[id], NoHole, Hole(from.id, port), slot, Link(from.id, port), table);
      connections := connections + [slot];
      BothSlots(net, w, t, from.id, id, table);
    }

    /** Broker::connect at the broker that is asked: take the asker's table, refresh the others, answer. */
    method Accept(from: Broker, port: nat, table: Table,
                  ghost net: Net, ghost own: set<Id>, ghost w: Wiring, ghost far: Sides, ghost t: Held)
        returns (source: nat, answer: Table)
      requires Named(net, own) && id in net && net[id] == this && from.id in net && net[from.id] == from
      requires HalfLinked(net, w, t, from.id, id) && Linkable(w, far, t, from.id, id) && port == |w[from.id]|
      requires table == Provides(own, Join(w, from.id, id), AddSlots(t, from.id, id), from.id, port)
      modifies net.Values`connections
      ensures Shows(net, Join(w, from.id, id), Theirs(own, w, far, t, from.id, id), Hole(from.id, port))
      ensures source == |w[id]|
      ensures answer == Provides(own, Join(w, from.id, id), Theirs(own, w, far, t, from.id, id), id, source)
    {
      source := Push(from, port, table, net, own, w, t);
      ghost var w', hole := Join(w, from.id, id), Hole(from.id, port);
      ghost var start := AddSlots(t, from.id, id)[id := t[id] + [table]];
      ghost var theirs := Theirs(own, w, far, t, from.id, id);
      AcceptedTables(own, w, far, t, from.id, id, table, start, theirs);
      AskerIsAway(w, far, t, from.id, id);
      RefreshConnections(source, net, own, w', JoinFar(far, from.id, id), start, hole);
      answer := Offer(source, net, own, w', theirs, hole);
    }

    /** The asker's first half: a slot for the peer, whose port number is still unknown, and the offer sent to it. */
    method Ask(peer: Broker, ghost net: Net, ghost own: set<Id>, ghost w: Wiring, ghost t: Held)
        returns (port: nat, table: Table)
      requires Named(net, own) && Wired(w) && In(net, w, t, NoHole) && peer.id in net && net[peer.id] == peer && peer != this
      modifies this`connections
      ensures HalfLinked(net, w, t, id, peer.id)
      ensures port == |w[id]| && table == Provides(own, Join(w, id, peer.id), AddSlots(t, id, peer.id), id, port)
    {
      port := |connections|;
      ghost var w', start, hole := Join(w, id, peer.id), AddSlots(t, id, peer.id), Hole(id, |w[id]|);
      var slot := Connection(peer, 0, map[]);
      SlotAdded(net, connections, id, w[id], t[id], NoHole, hole, slot, Link(peer.id, |w[peer.id]|), map[]);
      connections := connections + [slot];
      OthersKeepSlots(net, w, t, id, peer.id);
      var sources := Sources(port, net, w'[id], start[id], hole);
      table := UpdateProvides(sources);
    }

    /** The asker's second half: the peer's port number and table fill the slot. */
    method Fill(peer: Broker, port: nat, source: nat, answer: Table,
                ghost net: Net, ghost own: set<Id>, ghost w: Wiring, ghost t: Held)
      requires Named(net, own) && In(net, w, t, Hole(id, port)) && Port(w, id, port) && w[id][port] == Link(peer.id, source)
      requires peer.id in net && net[peer.id] == peer
      modifies this`connections
      ensures In(net, w, t[id := t[id][port := answer]], NoHole)
    {
      SlotClosed(net, connections, id, w[id], t[id], port, Connection(peer, source, answer), answer);
      connections := connections[port := Connection(peer, source, answer)];
      OthersClosed(net, w, t, id, port, answer);
    }

    /** An entry came in on this port: its author is noted if the table does not list it. */
    method Remember(port: nat, author: Id, ghost net: Net, ghost own: set<Id>, ghost w: Wiring, ghost t: Held)
      requires Named(net, own) && In(net, w, t, NoHole) && Port(w, id, port)
      modifies this`connections
      ensures In(net, w, AddNotes(w, t, [Note(id, port, author)]), NoHole) && port < |connections|
      ensures connections[port].offers == if author in t[id][port] then t[id][port] else t[id][port][author := 0]
    {
      assert ShowsSlot(net, connections[port], w[id][port], t[id][port], false);
      ghost var n := Note(id, port, author);
      assert [n][1..] == [];
      if author !in connections[port].offers {
        var conn := connections[port];
        var noted := conn.offers[author := 0];
        StoredShows(net, w, t, NoHole, id, port, connections, noted);
        connections := connections[port := conn.(offers := noted)];
        assert connections[port].source == w[id][port].far;
        OthersKept(net, w, t, id, port, noted);
      }
    }

    // Entries

    /** The network is a forest in this state, and this object one of its brokers. */
    ghost predicate Is(net: Net, own: set<Id>, w: Wiring, far: Sides, t: Held, s: Nodes)
      reads net.Values
    {
      Named(net, own) && In(net, w, t, NoHole) && ShowsNodes(net, s) && Forest(w, far)
    }

    /** The admission test and the save of JournalBase::insert; a hub has neither. */
    method Admit(e: Entry) returns (ok: bool)
      modifies this`saved
      ensures ok == Opens(old(State()), e)
      ensures saved == if ok && journal then old(saved) + [e] else old(saved)
    {
      ok := true;
      if journal {
        ok := IsNext(e.clock, clock, e.data.id) && !(plugin.Cache? && HasStamp(saved, e.clock));
        if ok {
          saved := saved + [e];
        }
      }
    }

    ghost predicate InMesh(net: Net, own: set<Id>, m: Mesh)
      reads net.Values
    {
      Is(net, own, m.g.w, m.g.far, m.g.t, m.s)
    }

    method LetIn(e: Entry, ghost net: Net, ghost s: Nodes) returns (ok: bool)
      requires id in net && net[id] == this && ShowsNodes(net, s) && forall n | n in net :: net[n].id == n
      modifies this`saved
      ensures ok == Opens(s[id], e)
      ensures ShowsNodes(net, if ok then s[id := SavedOnly(s[id], e)] else s)
    {
      assert net[id].State() == s[id];
      ok := Admit(e);
    }

    /** JournalBase::insert and Broker::insert: admission, then merge, note the author, and forward. A port that does
        not exist is refused only after the save. */
    method Insert(e: Entry, source: nat, ghost net: Net, ghost own: set<Id>, ghost w: Wiring, ghost far: Sides,
                  ghost t: Held, ghost s: Nodes)
        returns (result: Clock)
      requires Is(net, own, w, far, t, s)
      modifies net.Values`connections, net.Values`clock, net.Values`saved
      ensures Is(net, own, w, far, InsertedTables(w, far, t, s, id, source, e), InsertedNodes(w, far, s, id, source, e))
      ensures result == if source < |w[id]| && Opens(s[id], e) then Merge(ClockOf(s[id]), e.clock) else INVALID
      decreases Behind(far, id, source), 5
    {
      assert |connections| == |w[id]| by { assert ShowsSlots(net, connections, id, w[id], t[id], NoHole); }
      var ok := LetIn(e, net, s);
      if !ok {
        RefusedInsert(w, far, t, s, id, source, e);
        return INVALID;
      }
      if source >= |connections| {
        return INVALID;
      }
      result := Pass(e, source, net, own, w, far, t, s);
    }

    /** Broker::insert once the entry is let in; `s` is the network before the save. */
    method Pass(e: Entry, source: nat, ghost net: Net, ghost own: set<Id>, ghost w: Wiring, ghost far: Sides,
                ghost t: Held, ghost s: Nodes)
        returns (result: Clock)
      requires Named(net, own) && In(net, w, t, NoHole) && Forest(w, far) && source < |w[id]|
      requires w.Keys == s.Keys && Opens(s[id], e) && ShowsNodes(net, s[id := SavedOnly(s[id], e)])
      modifies net.Values`connections, net.Values`clock, net.Values`saved
      ensures Is(net, own, w, far, InsertedTables(w, far, t, s, id, source, e), InsertedNodes(w, far, s, id, source, e))
      ensures result == Merge(ClockOf(s[id]), e.clock)
      decreases Behind(far, id, source), 4
    {
      MergeAndNote(e, source, net, own, w, far, t, s);
      DueAtStart(w, far, t, s, id, source, e);
      ghost var u, noted := s[id := Passed(s[id], e)], NotedHere(w, t, id, source, e);
      ghost var tables, nodes := InsertedTables(w, far, t, s, id, source, e), InsertedNodes(w, far, s, id, source, e);
      SendToOthers(e, source, net, own, w, far, noted, u, tables, nodes);
      OwnStateAfter(w, far, s, id, source, e);
      result := clock;
    }

    method MergeAndNote(e: Entry, source: nat, ghost net: Net, ghost own: set<Id>, ghost w: Wiring, ghost far: Sides,
                        ghost t: Held, ghost s: Nodes)
      requires Named(net, own) && In(net, w, t, NoHole) && Forest(w, far) && source < |w[id]|
      requires w.Keys == s.Keys && Opens(s[id], e) && ShowsNodes(net, s[id := SavedOnly(s[id], e)])
      modifies this`connections, this`clock
      ensures Is(net, own, w, far, NotedHere(w, t, id, source, e), s[id := Passed(s[id], e)])
    {
      Absorb(e, net, s);
      NoteAuthor(e, source, net, own, w, t);
    }

    method Absorb(e: Entry, ghost net: Net, ghost s: Nodes)
      requires id in net && net[id] == this && id in s && Opens(s[id], e) && ShowsNodes(net, s[id := SavedOnly(s[id], e)])
      requires forall n | n in net :: net[n].id == n
      modifies this`clock
      ensures ShowsNodes(net, s[id := Passed(s[id], e)])
    {
      assert net[id].State() == SavedOnly(s[id], e);
      clock := Merge(clock, e.clock);
    }

    method NoteAuthor(e: Entry, source: nat, ghost net: Net, ghost own: set<Id>, ghost w: Wiring, ghost t: Held)
      requires Named(net, own) && In(net, w, t, NoHole) && source < |w[id]|
      modifies this`connections
      ensures In(net, w, NotedHere(w, t, id, source, e), NoHole)
    {
      assert ShowsSlot(net, connections[source], w[id][source], t[id][source], false) by {
        assert ShowsSlots(net, connections, id, w[id], t[id], NoHole);
      }
      if connections[source].peer != null {
        Remember(source, e.data.id, net, own, w, t);
      }
    }

    /** The forwarding loop: every port but the one the entry came from. */
    method SendToOthers(e: Entry, source: nat, ghost net: Net, ghost own: set<Id>, ghost w: Wiring, ghost far: Sides,
                        ghost t: Held, ghost s: Nodes, ghost tables: Held, ghost nodes: Nodes)
      requires Is(net, own, w, far, t, s)
      requires Due(w, far, t, s, id, source, e, 0, tables, nodes)
      modifies net.Values`connections, net.Values`clock, net.Values`saved
      ensures Is(net, own, w, far, tables, nodes)
      decreases Behind(far, id, source), 3
    {
      assert |connections| == |w[id]| by { assert ShowsSlots(net, connections, id, w[id], t[id], NoHole); }
      ghost var rt: Held, rs: Nodes := t, s;
      for i := 0 to |connections|
        invariant Midway(net, own, w, far, rt, rs, source, e, i, tables, nodes)
      {
        rt, rs := SendPort(i, e, source, net, own, w, far, rt, rs, tables, nodes);
      }
    }

    /** The loop has reached port `i`, with tables `t` and stores `s`. */
    ghost predicate Midway(net: Net, own: set<Id>, w: Wiring, far: Sides, t: Held, s: Nodes, source: nat, e: Entry, i: nat,
                           tables: Held, nodes: Nodes)
      reads net.Values
    {
      && Is(net, own, w, far, t, s) && i <= |w[id]|
      && Due(w, far, t, s, id, source, e, i, tables, nodes)
    }

    /** One turn of that loop. */
    method SendPort(i: nat, e: Entry, source: nat, ghost net: Net, ghost own: set<Id>, ghost w: Wiring, ghost far: Sides,
                    ghost t: Held, ghost s: Nodes, ghost tables: Held, ghost nodes: Nodes)
        returns (ghost rt: Held, ghost rs: Nodes)
      requires Midway(net, own, w, far, t, s, source, e, i, tables, nodes) && i < |w[id]|
      modifies net.Values`connections, net.Values`clock, net.Values`saved
      ensures Midway(net, own, w, far, rt, rs, source, e, i + 1, tables, nodes)
      decreases Behind(far, id, source), 2
    {
      DueAfterTurn(w, far, t, s, id, source, e, i, tables, nodes);
      rt, rs := t, s;
      if i == source {
        return;
      }
      assert ShowsSlot(net, connections[i], w[id][i], t[id][i], false) by {
        assert ShowsSlots(net, connections, id, w[id], t[id], NoHole);
      }
      var conn := connections[i];
      if conn.peer != null {
        var ignored := conn.peer.Insert(e, conn.source, net, own, w, far, t, s);
        rt := InsertedTables(w, far, t, s, w[id][i].peer, w[id][i].far, e);
        rs := InsertedNodes(w, far, s, w[id][i].peer, w[id][i].far, e);
      }
    }

    /** The search over the ports in ascending order: distance 0 ends it, otherwise the first of the nearest wins. */
    method Search(goal: Id, sender: nat, ghost net: Net, ghost own: set<Id>, ghost w: Wiring, ghost t: Held)
        returns (best: Relays.Choice)
      requires Named(net, own) && Wired(w) && In(net, w, t, NoHole)
      ensures best == Relays.NextHop(own, w, t, id, goal, sender)
    {
      var sources := Sources(0, net, w[id], t[id], NoHole);
      SortedIdsAreAscending(sources.Keys);
      best := Nearest(SortedIds(sources.Keys), sources, goal, sender);
    }

    static method Nearest(ports: seq<nat>, sources: map<nat, Table>, goal: Id, sender: nat) returns (best: Relays.Choice)
      requires forall p | p in ports :: p in sources
      ensures best == Relays.Choose(ports, sources, goal, sender, Relays.Nowhere)
    {
      best := Relays.Nowhere;
      ghost var whole := Relays.Choose(ports, sources, goal, sender, best);
      assert ports[0..] == ports;
      for k := 0 to |ports|
        invariant !best.Here? && whole == Relays.Choose(ports[k..], sources, goal, sender, best)
      {
        assert ports[k..][0] == ports[k] && ports[k..][1..] == ports[k + 1..];
        var p := ports[k];
        if sender > 0 && p == sender {
          continue;
        }
        var table := sources[p];
        if goal in table {
          if table[goal] == 0 {
            return Relays.Here;
          } else if best.Nowhere? || table[goal] < best.distance {
            best := Relays.Through(p, table[goal]);
          }
        }
      }
    }

    /** BrokerBase::append: the stamp is the broker's own clock, ticked. */
    method Append(data: Data, ghost net: Net, ghost own: set<Id>, ghost w: Wiring, ghost far: Sides, ghost t: Held, ghost s: Nodes)
        returns (result: Clock)
      requires Is(net, own, w, far, t, s)
      modifies net.Values`connections, net.Values`clock, net.Values`saved
      ensures Is(net, own, w, far, InsertedTables(w, far, t, s, id, 0, StampAt(s, id, data)),
                 AppendAt(w, far, s, id, data))
      ensures var e := Entry(Tick(old(clock), data.id), data);
              && (result == if Opens(s[id], e) then Merge(old(clock), e.clock) else INVALID)
              && (clock == if Opens(s[id], e) then Merge(old(clock), e.clock) else old(clock))
              && (journal ==> saved == if Opens(s[id], e) then old(saved) + [e] else old(saved))
      decreases Behind(far, id, 0), 7
    {
      assert net[id].State() == s[id] && |w[id]| > 0;
      OwnEntry(w, far, s, id, data);
      ghost var tables, nodes := InsertedTables(w, far, t, s, id, 0, StampAt(s, id, data)), AppendAt(w, far, s, id, data);
      result := InsertOwn(data, net, own, w, far, t, s, tables, nodes);
      assert net[id].State() == nodes[id];
    }

    method InsertOwn(data: Data, ghost net: Net, ghost own: set<Id>, ghost w: Wiring, ghost far: Sides, ghost t: Held,
                     ghost s: Nodes, ghost tables: Held, ghost nodes: Nodes)
        returns (result: Clock)
      requires Is(net, own, w, far, t, s) && |w[id]| > 0 && State() == s[id]
      requires tables == InsertedTables(w, far, t, s, id, 0, Entry(Tick(clock, data.id), data))
      requires nodes == InsertedNodes(w, far, s, id, 0, Entry(Tick(clock, data.id), data))
      modifies net.Values`connections, net.Values`clock, net.Values`saved
      ensures Is(net, own, w, far, tables, nodes)
      ensures var e := Entry(Tick(old(clock), data.id), data);
              result == if Opens(s[id], e) then Merge(old(clock), e.clock) else INVALID
      decreases Behind(far, id, 0), 6
    {
      result := Insert(Entry(Tick(clock, data.id), data), 0, net, own, w, far, t, s);
    }

    /** BrokerBase::insert of a list: one by one, whatever the outcome of each. */
    method InsertBatch(list: seq<Entry>, source: nat, ghost net: Net, ghost own: set<Id>, ghost w: Wiring, ghost far: Sides,
                       ghost t: Held, ghost s: Nodes)
      requires Is(net, own, w, far, t, s) && source < |w[id]|
      modifies net.Values`connections, net.Values`clock, net.Values`saved
      ensures Is(net, own, w, far, BatchNoted(w, far, t, s, id, source, list), BatchInForest(w, far, s, id, source, list))
    {
      ghost var tables, nodes := BatchNoted(w, far, t, s, id, source, list), BatchInForest(w, far, s, id, source, list);
      ghost var rt: Held, rs: Nodes := t, s;
      assert list[0..] == list;
      for i := 0 to |list|
        invariant InBatch(net, own, w, far, rt, rs, source, list[i..], tables, nodes)
      {
        assert list[i..][0] == list[i] && list[i..][1..] == list[i + 1..];
        rt, rs := InsertNext(list[i], list[i..], source, net, own, w, far, rt, rs, tables, nodes);
      }
    }

    /** One turn: `list` is what is left of the batch. */
    method InsertNext(e: Entry, ghost list: seq<Entry>, source: nat, ghost net: Net, ghost own: set<Id>, ghost w: Wiring,
                      ghost far: Sides, ghost t: Held, ghost s: Nodes, ghost tables: Held, ghost nodes: Nodes)
        returns (ghost rt: Held, ghost rs: Nodes)
      requires InBatch(net, own, w, far, t, s, source, list, tables, nodes) && list != [] && e == list[0]
      modifies net.Values`connections, net.Values`clock, net.Values`saved
      ensures InBatch(net, own, w, far, rt, rs, source, list[1..], tables, nodes)
    {
      var ignored := Insert(e, source, net, own, w, far, t, s);
      rt, rs := InsertedTables(w, far, t, s, id, source, e), InsertedNodes(w, far, s, id, source, e);
    }

    /** With tables `t` and stores `s`, the rest of the batch leads to `tables` and `nodes`. */
    ghost predicate InBatch(net: Net, own: set<Id>, w: Wiring, far: Sides, t: Held, s: Nodes, source: nat, list: seq<Entry>,
                            tables: Held, nodes: Nodes)
      reads net.Values
    {
      && Is(net, own, w, far, t, s) && source < |w[id]|
      && tables == BatchNoted(w, far, t, s, id, source, list) && nodes == BatchInForest(w, far, s, id, source, list)
    }

    /** JournalBase::query on a journal; a hub asks the first other port that lists journals. */
    method Query(from: Clock, sender: nat, ghost net: Net, ghost own: set<Id>, ghost w: Wiring, ghost far: Sides,
                 ghost t: Held, ghost s: Nodes)
        returns (list: seq<Entry>)
      requires Is(net, own, w, far, t, s)
      ensures list == QueryAt(w, far, t, s, id, from, sender)
      ensures journal ==> forall e :: e in list <==> e in Listing(Replica(plugin, clock, saved)) && !Leq(e.clock, from)
      decreases Behind(far, id, sender)
    {
      assert net[id].State() == s[id];
      if journal {
        Deltas.QueryMembers(Listing(Replica(plugin, clock, saved)), from);
        list := Deltas.Collect(Listing(Replica(plugin, clock, saved)), from);
        return;
      }
      assert |connections| == |w[id]| by { assert ShowsSlots(net, connections, id, w[id], t[id], NoHole); }
      for i := 1 to |connections|
        invariant QueryPorts(w, far, t, s, id, from, sender, i) == QueryAt(w, far, t, s, id, from, sender)
      {
        assert ShowsSlot(net, connections[i], w[id][i], t[id][i], false) by {
          assert ShowsSlots(net, connections, id, w[id], t[id], NoHole);
        }
        var conn := connections[i];
        if i == sender || conn.offers == map[] {
          continue;
        }
        if conn.peer != null {
          LinkFacts(w, far, id, i);
          BehindNarrows(w, far, id, sender, i);
          list := conn.peer.Query(from, conn.source, net, own, w, far, t, s);
          return;
        }
      }
      list := [];
    }

    /** Broker::relay, with JournalBase::relay's reading of id 0 as one's own: follow the smallest distance, and
        append where it is zero. */
    method Relay(data: Data, sender: nat, ghost net: Net, ghost own: set<Id>, ghost w: Wiring, ghost far: Sides,
                 ghost t: Held, ghost s: Nodes)
        returns (result: Clock)
      requires Is(net, own, w, far, t, s) && Relays.Exactly(own, w, far, t) && 0 !in own
      modifies net.Values`connections, net.Values`clock, net.Values`saved
      ensures var d := if journal && data.id == 0 then Data(id, data.value, data.alters) else data;
              Relayed(net, own, w, far, t, s, Relays.Relay(own, w, far, t, id, d.id, sender), d, result)
      ensures sender == 0 ==> ShowsNodes(net, Relays.RelayData(own, w, far, t, s, id, data))
      decreases Relays.Toward(w, far, id, Relays.Addressee(own, id, data).id), 2
    {
      var d := if journal && data.id == 0 then data.(id := id) else data;
      RelayedIsRelayData(own, w, far, t, s, id, data);
      result := RelayTo(d, sender, net, own, w, far, t, s);
    }

    /** Broker::relay itself. */
    method RelayTo(d: Data, sender: nat, ghost net: Net, ghost own: set<Id>, ghost w: Wiring, ghost far: Sides,
                   ghost t: Held, ghost s: Nodes)
        returns (result: Clock)
      requires Is(net, own, w, far, t, s) && Relays.Exactly(own, w, far, t) && 0 !in own
      modifies net.Values`connections, net.Values`clock, net.Values`saved
      ensures Relayed(net, own, w, far, t, s, Relays.Relay(own, w, far, t, id, d.id, sender), d, result)
      decreases Relays.Toward(w, far, id, d.id), 1
    {
      var choice := Search(d.id, sender, net, own, w, t);
      ghost var o := Relays.Relay(own, w, far, t, id, d.id, sender);
      RelayUnfolds(own, w, far, t, id, d.id, sender, choice, o);
      match choice {
        case Here =>
          result := RelayHere(d, net, own, w, far, t, s);
        case Nowhere =>
          NoRouteChangesNothing(w, far, t, s, d);
          result := INVALID;
        case Through(port, _) =>
          result := RelayThrough(port, d, net, own, w, far, t, s);
      }
    }

    /** The data was appended where `o` says, or nowhere; otherwise nothing changed. */
    ghost predicate Relayed(net: Net, own: set<Id>, w: Wiring, far: Sides, t: Held, s: Nodes, o: Relays.Outcome, d: Data, result: Clock)
      reads net.Values
    {
      && Forest(w, far) && Fits(w, t) && w.Keys == s.Keys
      && Is(net, own, w, far, RelayedTables(w, far, t, s, o, d), RelayedNodes(w, far, s, o, d))
      && result == RelayedClock(s, o, d)
    }

    method RelayHere(d: Data, ghost net: Net, ghost own: set<Id>, ghost w: Wiring, ghost far: Sides, ghost t: Held, ghost s: Nodes)
        returns (result: Clock)
      requires Is(net, own, w, far, t, s)
      modifies net.Values`connections, net.Values`clock, net.Values`saved
      ensures Relayed(net, own, w, far, t, s, Relays.Inserted(id, 0), d, result)
    {
      RelayedHere(w, far, t, s, id, d);
      result := Append(d, net, own, w, far, t, s);
    }

    /** The forward to the peer of the port chosen. */
    method RelayThrough(port: nat, d: Data, ghost net: Net, ghost own: set<Id>, ghost w: Wiring, ghost far: Sides,
                        ghost t: Held, ghost s: Nodes)
        returns (result: Clock)
      requires Is(net, own, w, far, t, s) && Relays.Exactly(own, w, far, t) && 0 !in own && d.id in own && Port(w, id, port)
      requires w[id][port].peer in w && Relays.Toward(w, far, w[id][port].peer, d.id) < Relays.Toward(w, far, id, d.id)
      modifies net.Values`connections, net.Values`clock, net.Values`saved
      ensures Relayed(net, own, w, far, t, s, OneMore(Relays.Relay(own, w, far, t, w[id][port].peer, d.id, w[id][port].far)),
                      d, result)
      decreases Relays.Toward(w, far, id, d.id), 0
    {
      assert ShowsSlot(net, connections[port], w[id][port], t[id][port], false) by {
        assert ShowsSlots(net, connections, id, w[id], t[id], NoHole);
      }
      var conn := connections[port];
      RelayedOneMore(w, far, t, s, Relays.Relay(own, w, far, t, conn.peer.id, d.id, conn.source), d);
      result := conn.peer.Relay(d, conn.source, net, own, w, far, t, s);
    }

    /** Broker::connect at the asker: exchange tables, then what each side's stores have for the other, then refresh.
        Without a peer nothing happens. */
    method Connect(peer: Broker?, ghost net: Net, ghost own: set<Id>, ghost m: Mesh) returns (source: Option<nat>)
      requires InMesh(net, own, m)
      requires peer != null ==> peer.id in net && net[peer.id] == peer
      requires peer != null ==> Upright(own, m) && Linkable(m.g.w, m.g.far, m.g.t, id, peer.id)
      modifies net.Values`connections, net.Values`clock, net.Values`saved
      ensures source == if peer == null then None else Some(|m.g.w[id]|)
      ensures InMesh(net, own, if peer == null then m else Connected(own, m, id, peer.id))
    {
      if peer == null {
        return None;
      }
      var port, theirPort := LinkInMesh(peer, net, own, m);
      Exchange(peer, port, theirPort, net, own, m);
      ConnectedIs(own, m, id, peer.id);
      RefreshOthersOf(port, net, own, Join(m.g.w, id, peer.id), JoinFar(m.g.far, id, peer.id),
                      ExchangedTables(own, m, id, peer.id), ExchangedNodes(own, m, id, peer.id));
      source := Some(port);
    }

    /** RefreshConnections, stores untouched. */
    method RefreshOthersOf(port: nat, ghost net: Net, ghost own: set<Id>, ghost w: Wiring, ghost far: Sides, ghost t: Held, ghost s: Nodes)
      requires Is(net, own, w, far, t, s) && |w[id]| > 1
      modifies net.Values`connections
      ensures Is(net, own, w, far, RefreshOthers(own, w, far, t, id, port, 1), s)
    {
      RefreshConnections(port, net, own, w, far, t, NoHole);
    }

    /** The exchange of tables: both slots are there and filled. */
    method LinkTo(peer: Broker, ghost net: Net, ghost own: set<Id>, ghost w: Wiring, ghost far: Sides, ghost t: Held)
        returns (port: nat, theirPort: nat)
      requires Named(net, own) && Wired(w) && In(net, w, t, NoHole)
      requires peer.id in net && net[peer.id] == peer && Linkable(w, far, t, id, peer.id)
      modifies net.Values`connections
      ensures port == |w[id]| && theirPort == |w[peer.id]|
      ensures In(net, Join(w, id, peer.id), Answered(own, w, far, t, id, peer.id), NoHole)
    {
      var table, answer;
      port, table := Ask(peer, net, own, w, t);
      theirPort, answer := peer.Accept(this, port, table, net, own, w, far, t);
      NewPort(w, far, id, peer.id);
      Fill(peer, port, theirPort, answer, net, own, Join(w, id, peer.id), Theirs(own, w, far, t, id, peer.id));
    }

    method LinkInMesh(peer: Broker, ghost net: Net, ghost own: set<Id>, ghost m: Mesh) returns (port: nat, theirPort: nat)
      requires InMesh(net, own, m) && peer.id in net && net[peer.id] == peer
      requires Linkable(m.g.w, m.g.far, m.g.t, id, peer.id)
      modifies net.Values`connections
      ensures port == |m.g.w[id]| && theirPort == |m.g.w[peer.id]|
      ensures Is(net, own, Join(m.g.w, id, peer.id), JoinFar(m.g.far, id, peer.id),
                 Answered(own, m.g.w, m.g.far, m.g.t, id, peer.id), m.s)
    {
      port, theirPort := LinkTo(peer, net, own, m.g.w, m.g.far, m.g.t);
    }

    /** The exchange of entries: both answers are computed before either is inserted. */
    method Exchange(peer: Broker, port: nat, theirPort: nat, ghost net: Net, ghost own: set<Id>, ghost m: Mesh)
      requires Upright(own, m) && Linkable(m.g.w, m.g.far, m.g.t, id, peer.id) && peer.id in net && net[peer.id] == peer
      requires port == |m.g.w[id]| && theirPort == |m.g.w[peer.id]|
      requires Is(net, own, Join(m.g.w, id, peer.id), JoinFar(m.g.far, id, peer.id),
                  Answered(own, m.g.w, m.g.far, m.g.t, id, peer.id), m.s)
      modifies net.Values`connections, net.Values`clock, net.Values`saved
      ensures Is(net, own, Join(m.g.w, id, peer.id), JoinFar(m.g.far, id, peer.id),
                 ExchangedTables(own, m, id, peer.id), ExchangedNodes(own, m, id, peer.id))
    {
      ghost var w', far' := Join(m.g.w, id, peer.id), JoinFar(m.g.far, id, peer.id);
      ghost var answered := Answered(own, m.g.w, m.g.far, m.g.t, id, peer.id);
      var theirs, mine := AskBoth(peer, port, theirPort, net, own, m);
      ExchangedTablesAre(own, m, id, peer.id, w', far', answered, theirs, mine);
      ExchangedNodesAre(own, m, id, peer.id, w', far', theirs, mine);
      NewPort(m.g.w, m.g.far, id, peer.id);
      InsertBoth(peer, port, theirPort, theirs, mine, net, own, w', far', answered, m.s);
    }

    method AskBoth(peer: Broker, port: nat, theirPort: nat, ghost net: Net, ghost own: set<Id>, ghost m: Mesh)
        returns (theirs: seq<Entry>, mine: seq<Entry>)
      requires Upright(own, m) && Linkable(m.g.w, m.g.far, m.g.t, id, peer.id) && peer.id in net && net[peer.id] == peer
      requires port == |m.g.w[id]| && theirPort == |m.g.w[peer.id]|
      requires Is(net, own, Join(m.g.w, id, peer.id), JoinFar(m.g.far, id, peer.id),
                  Answered(own, m.g.w, m.g.far, m.g.t, id, peer.id), m.s)
      ensures theirs == SentToAsker(own, m, id, peer.id) && mine == SentByAsker(own, m, id, peer.id)
    {
      ghost var w', far' := Join(m.g.w, id, peer.id), JoinFar(m.g.far, id, peer.id);
      ghost var answered := Answered(own, m.g.w, m.g.far, m.g.t, id, peer.id);
      theirs, mine := QueryBoth(peer, port, theirPort, net, own, w', far', answered, m.s);
      AnswersAre(own, m, id, peer.id, w', far', answered);
    }

    method QueryBoth(peer: Broker, port: nat, theirPort: nat, ghost net: Net, ghost own: set<Id>, ghost w: Wiring, ghost far: Sides,
                     ghost t: Held, ghost s: Nodes)
        returns (theirs: seq<Entry>, mine: seq<Entry>)
      requires Is(net, own, w, far, t, s) && peer.id in net && net[peer.id] == peer
      ensures theirs == QueryAt(w, far, t, s, peer.id, ClockOf(s[id]), theirPort)
      ensures mine == QueryAt(w, far, t, s, id, ClockOf(s[peer.id]), port)
    {
      assert net[id].State() == s[id] && net[peer.id].State() == s[peer.id];
      mine := Query(peer.clock, port, net, own, w, far, t, s);
      theirs := peer.Query(clock, theirPort, net, own, w, far, t, s);
    }

    method InsertBoth(peer: Broker, port: nat, theirPort: nat, theirs: seq<Entry>, mine: seq<Entry>,
                      ghost net: Net, ghost own: set<Id>, ghost w: Wiring, ghost far: Sides, ghost t: Held, ghost s: Nodes)
      requires Is(net, own, w, far, t, s) && port < |w[id]|
      requires peer.id in net && net[peer.id] == peer && theirPort < |w[peer.id]|
      modifies net.Values`connections, net.Values`clock, net.Values`saved
      ensures Is(net, own, w, far,
                 BatchNoted(w, far, BatchNoted(w, far, t, s, id, port, theirs), BatchInForest(w, far, s, id, port, theirs),
                            peer.id, theirPort, mine),
                 BatchInForest(w, far, BatchInForest(w, far, s, id, port, theirs), peer.id, theirPort, mine))
    {
      if |theirs| > 0 {
        InsertBatch(theirs, port, net, own, w, far, t, s);
      }
      ghost var t', s' := BatchNoted(w, far, t, s, id, port, theirs), BatchInForest(w, far, s, id, port, theirs);
      assert peer.Is(net, own, w, far, t', s');
      if |mine| > 0 {
        peer.InsertBatch(mine, theirPort, net, own, w, far, t', s');
      }
    }
  }
}
