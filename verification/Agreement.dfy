/** Appends on a connected network: all journals stay in agreement. */
module Agreement {
  import opened Clocks
  import opened Entries
  import opened Flooding
  import opened Runs

  /** BrokerBase::append at journal `a`: append, replace and erase differ only in the data. */
  ghost function LocalAppend(w: Wiring, s: World, a: Id, data: Data): (r: World)
    requires Wired(w) && w.Keys == s.Keys && a in s
    ensures r.Keys == s.Keys
  {
    Insert(w, s, a, 0, Stamped(s[a], data))
  }

  // A flood is a sequence of deliveries

  ghost function DeliverAll(s: World, who: seq<Id>, e: Entry): World
    requires forall n | n in who :: n in s
    decreases who
  {
    if who == [] then s else DeliverAll(s[who[0] := Admit(s[who[0]], e)], who[1..], e)
  }

  lemma {:induction false} DeliverAllConcat(s: World, who1: seq<Id>, who2: seq<Id>, e: Entry)
    requires forall n | n in who1 + who2 :: n in s
    ensures forall n | n in who1 :: n in s
    ensures DeliverAll(s, who1, e).Keys == s.Keys
    ensures forall n | n in who2 :: n in s
    ensures DeliverAll(s, who1 + who2, e) == DeliverAll(DeliverAll(s, who1, e), who2, e)
    decreases who1
  {
    forall n | n in who1 || n in who2 ensures n in s {
      assert n in who1 + who2;
    }
    if who1 == [] {
      assert who1 + who2 == who2;
    } else {
      assert (who1 + who2)[0] == who1[0] && (who1 + who2)[1..] == who1[1..] + who2;
      var t := s[who1[0] := Admit(s[who1[0]], e)];
      assert t.Keys == s.Keys;
      forall n | n in who1[1..] + who2 ensures n in t {
        assert n in who1 || n in who2;
      }
      DeliverAllConcat(t, who1[1..], who2, e);
    }
  }

  lemma {:induction false} InsertIsDeliveries(w: Wiring, s: World, n: Id, source: nat, e: Entry) returns (who: seq<Id>)
    requires Wired(w) && w.Keys == s.Keys && n in s
    ensures forall x | x in who :: x in s
    ensures DeliverAll(s, who, e) == Insert(w, s, n, source, e)
    decreases Ready(s, e), 0
  {
    if Admits(s[n], e) {
      TakeOnce(s, n, e);
      var t := s[n := Take(s[n], e)];
      var rest := ForwardIsDeliveries(w, t, n, source, e, 0);
      who := [n] + rest;
      assert who[1..] == rest;
    } else {
      who := [];
    }
  }

  lemma {:induction false} ForwardIsDeliveries(w: Wiring, s: World, n: Id, source: nat, e: Entry, i: nat) returns (who: seq<Id>)
    requires Wired(w) && w.Keys == s.Keys && n in s && i <= |w[n]|
    ensures forall x | x in who :: x in s
    ensures DeliverAll(s, who, e) == Forward(w, s, n, source, e, i)
    decreases Ready(s, e), |w[n]| - i + 1
  {
    if i == |w[n]| {
      who := [];
    } else if i == source || w[n][i].NoLink? {
      who := ForwardIsDeliveries(w, s, n, source, e, i + 1);
    } else {
      assert LinkOk(w, n, i);
      var first := InsertIsDeliveries(w, s, w[n][i].peer, w[n][i].far, e);
      var t := Insert(w, s, w[n][i].peer, w[n][i].far, e);
      var rest := ForwardIsDeliveries(w, t, n, source, e, i + 1);
      who := first + rest;
      DeliverAllConcat(s, first, rest, e);
    }
  }

  ghost function Last(run: seq<Sys>): Sys
    requires |run| > 0
  {
    run[|run| - 1]
  }

  lemma ExtendRun(run: seq<Sys>, steps: seq<Step>, step: Step)
    requires IsRun(run, steps) && Enabled(Last(run), step)
    ensures IsRun(run + [Next(Last(run), step)], steps + [step])
  {
    var run', steps' := run + [Next(Last(run), step)], steps + [step];
    forall i | 0 <= i < |steps'| ensures StepAt(run', steps', i) {
      if i < |steps| {
        assert StepAt(run, steps, i);
      }
    }
  }

  lemma {:induction false} DeliveriesExtendRun(run: seq<Sys>, steps: seq<Step>, who: seq<Id>, e: Entry)
      returns (run': seq<Sys>, steps': seq<Step>)
    requires IsRun(run, steps) && IsIssued(Last(run).issued, e)
    requires forall n | n in who :: n in Last(run).world
    ensures IsRun(run', steps') && run <= run' && steps <= steps'
    ensures Last(run') == Sys(DeliverAll(Last(run).world, who, e), Last(run).issued)
    decreases who
  {
    if who == [] {
      run', steps' := run, steps;
    } else {
      var step := Deliver(who[0], e);
      ExtendRun(run, steps, step);
      run', steps' := run + [Next(Last(run), step)], steps + [step];
      run', steps' := DeliveriesExtendRun(run', steps', who[1..], e);
    }
  }

  lemma LocalAppendIsForward(w: Wiring, s: World, a: Id, data: Data)
    requires Wired(w) && w.Keys == s.Keys && a in s && ClockIsJoin(s[a])
    ensures var e := Stamped(s[a], data);
            LocalAppend(w, s, a, data) == Forward(w, s[a := Take(s[a], e)], a, 0, e, 0)
  {
    AppendIsAdmitted(s[a], data);
  }

  lemma AppendStep(s: Sys, a: Id, data: Data)
    requires Inv(s) && Enabled(s, Append(a, data))
    ensures var e := Stamped(s.world[a], data);
            && ClockIsJoin(s.world[a])
            && Next(s, Append(a, data)) == Sys(s.world[a := Take(s.world[a], e)], s.issued[a := s.issued[a] + [e]])
            && IsIssued(Next(s, Append(a, data)).issued, e)
  {
    assert ReplicaOk(s.issued, s.world[a]);
    AppendIsAdmitted(s.world[a], data);
    AppendKeepsInv(s, a, data);
  }

  /** An append and its whole flood are steps of a run: every result about runs covers them. */
  lemma AppendExtendsRun(run: seq<Sys>, steps: seq<Step>, w: Wiring, a: Id, data: Data)
      returns (run': seq<Sys>, steps': seq<Step>)
    requires IsRun(run, steps) && Wired(w) && w.Keys == Last(run).world.Keys
    requires a in Last(run).world && data.id == a
    ensures IsRun(run', steps') && run <= run' && steps <= steps'
    ensures a in Last(run).issued
    ensures Last(run') == Sys(LocalAppend(w, Last(run).world, a, data),
                              Last(run).issued[a := Last(run).issued[a] + [Stamped(Last(run).world[a], data)]])
  {
    var s, step := Last(run), Append(a, data);
    RunKeepsInv(run, steps, |run| - 1);
    AppendStep(s, a, data);
    ExtendRun(run, steps, step);
    LocalAppendIsForward(w, s.world, a, data);
    var t := Next(s, step);
    var who := ForwardIsDeliveries(w, t.world, a, 0, Stamped(s.world[a], data), 0);
    run', steps' := DeliveriesExtendRun(run + [t], steps + [step], who, Stamped(s.world[a], data));
  }

  /** So is the insertion of an issued entry anywhere in the network, flood included. */
  lemma InsertExtendsRun(run: seq<Sys>, steps: seq<Step>, w: Wiring, n: Id, source: nat, e: Entry)
      returns (run': seq<Sys>, steps': seq<Step>)
    requires IsRun(run, steps) && Wired(w) && w.Keys == Last(run).world.Keys
    requires n in Last(run).world && IsIssued(Last(run).issued, e)
    ensures IsRun(run', steps') && run <= run' && steps <= steps'
    ensures Last(run') == Sys(Insert(w, Last(run).world, n, source, e), Last(run).issued)
  {
    var who := InsertIsDeliveries(w, Last(run).world, n, source, e);
    run', steps' := DeliveriesExtendRun(run, steps, who, e);
  }

  // Agreement

  ghost predicate Connected(w: Wiring) {
    forall n, x | n in w && x in w :: Reaches(w, w.Keys, n, 0, x)
  }

  /** All journals have the same clock and saved the same entries in the same order. */
  ghost predicate Agree(s: World) {
    && (forall n, m | n in s && m in s :: s[n].clock == s[m].clock && s[n].saved == s[m].saved)
    && (forall n | n in s :: ClockIsJoin(s[n]))
  }

  /** On a connected network in agreement an append reaches every journal, once. */
  lemma AppendKeepsAgreement(w: Wiring, s: World, a: Id, data: Data)
    requires Wired(w) && w.Keys == s.Keys && a in s && Connected(w) && Agree(s)
    ensures forall n | n in s :: LocalAppend(w, s, a, data)[n] == Take(s[n], Stamped(s[a], data))
    ensures Agree(LocalAppend(w, s, a, data))
  {
    var e := Stamped(s[a], data);
    forall n | n in s ensures Admits(s[n], e) {
      AppendIsAdmitted(s[n], data);
    }
    assert Ready(s, e) == w.Keys;
    FloodTakesReachable(w, s, a, 0, e);
    var r := LocalAppend(w, s, a, data);
    forall n | n in s ensures r[n] == Take(s[n], e) && ClockIsJoin(r[n]) {
      assert Reaches(w, w.Keys, a, 0, n);
      TakeKeepsJoin(s[n], e);
    }
  }

  /** A local call: at which journal, and what data it books. */
  datatype Call = Call(at: Id, data: Data)

  ghost function RunCalls(w: Wiring, s: World, calls: seq<Call>): (r: World)
    requires Wired(w) && w.Keys == s.Keys && forall c | c in calls :: c.at in s
    ensures r.Keys == s.Keys
    decreases calls
  {
    if calls == [] then s else RunCalls(w, LocalAppend(w, s, calls[0].at, calls[0].data), calls[1..])
  }

  lemma {:induction false} CallsKeepAgreement(w: Wiring, s: World, calls: seq<Call>)
    requires Wired(w) && w.Keys == s.Keys && Connected(w) && Agree(s)
    requires forall c | c in calls :: c.at in s
    ensures Agree(RunCalls(w, s, calls))
    ensures forall n | n in s :: SavedCalls(s[n].saved, RunCalls(w, s, calls)[n].saved, calls)
    decreases calls
  {
    if calls != [] {
      var t := LocalAppend(w, s, calls[0].at, calls[0].data);
      AppendKeepsAgreement(w, s, calls[0].at, calls[0].data);
      CallsKeepAgreement(w, t, calls[1..]);
      forall n | n in s ensures SavedCalls(s[n].saved, RunCalls(w, t, calls[1..])[n].saved, calls) {
        SavedCallsCons(s[n].saved, Stamped(s[calls[0].at], calls[0].data), RunCalls(w, t, calls[1..])[n].saved, calls);
      }
    }
  }

  lemma SavedCallsCons(before: seq<Entry>, e: Entry, now: seq<Entry>, calls: seq<Call>)
    requires calls != [] && e.data == calls[0].data
    requires SavedCalls(before + [e], now, calls[1..])
    ensures SavedCalls(before, now, calls)
  {
    forall i | 0 <= i < |calls| ensures now[|before| + i].data == calls[i].data {
      if i == 0 {
        assert (before + [e])[|before|] == e;
      } else {
        assert now[|before + [e]| + (i - 1)].data == calls[1..][i - 1].data;
      }
    }
  }

  /** `now` is `before` followed by one entry for each call, in call order. */
  ghost predicate SavedCalls(before: seq<Entry>, now: seq<Entry>, calls: seq<Call>) {
    && |now| == |before| + |calls|
    && before <= now
    && forall i | 0 <= i < |calls| :: now[|before| + i].data == calls[i].data
  }

  ghost predicate Empty(s: World) { forall n | n in s :: s[n].clock == map[] && s[n].saved == [] }

  /** Agreement over whole runs: on any connected graph of journals, cycles allowed, that starts empty,
      after every append, replace or erase made anywhere all clocks are equal and every journal
      has saved each call's entry once, in call order. */
  lemma ConnectedNetworkAgrees(w: Wiring, s: World, calls: seq<Call>)
    requires Wired(w) && w.Keys == s.Keys && Connected(w) && Empty(s)
    requires forall c | c in calls :: c.at in s
    ensures Agree(RunCalls(w, s, calls))
    ensures forall n | n in s :: SavedCalls([], RunCalls(w, s, calls)[n].saved, calls)
  {
    CallsKeepAgreement(w, s, calls);
  }
}
