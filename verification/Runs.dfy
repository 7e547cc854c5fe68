/** Journals as a state machine: issued entries reach journals in any order, any number of times. */
module Runs {
  import opened Clocks
  import opened Entries
  import opened Flooding

  /** `issued[a]` records, for the statements only, what author `a` has stamped so far. */
  datatype Sys = Sys(world: World, issued: map<Id, seq<Entry>>)

  datatype Step = Append(author: Id, data: Data) | Deliver(to: Id, e: Entry)

  function Admit(r: Replica, e: Entry): Replica { if Admits(r, e) then Take(r, e) else r }

  /** BrokerBase::append: the stamp is the journal's own clock, ticked. */
  function Stamped(r: Replica, data: Data): Entry { Entry(Tick(r.clock, data.id), data) }

  ghost predicate Enabled(s: Sys, step: Step) {
    match step
    case Append(a, data) => a in s.world && a in s.issued && data.id == a
    case Deliver(n, e) => n in s.world && IsIssued(s.issued, e)
  }

  ghost function Next(s: Sys, step: Step): Sys
    requires Enabled(s, step)
  {
    match step
    case Append(a, data) =>
      var e := Stamped(s.world[a], data);
      if Admits(s.world[a], e) then Sys(s.world[a := Take(s.world[a], e)], s.issued[a := s.issued[a] + [e]]) else s
    case Deliver(n, e) => s.(world := s.world[n := Admit(s.world[n], e)])
  }

  ghost predicate Init(s: Sys) {
    && 0 !in s.world && s.issued.Keys == s.world.Keys
    && (forall n | n in s.world :: s.world[n].clock == map[] && s.world[n].saved == [])
    && (forall a | a in s.issued :: s.issued[a] == [])
  }

  /** `run` is a sequence of states from an empty system, each obtained from the one before by an enabled step. */
  ghost predicate IsRun(run: seq<Sys>, steps: seq<Step>) {
    && |run| == |steps| + 1 && Init(run[0])
    && forall i | 0 <= i < |steps| :: StepAt(run, steps, i)
  }

  ghost predicate StepAt(run: seq<Sys>, steps: seq<Step>, i: nat)
    requires |run| == |steps| + 1 && i < |steps|
  {
    Enabled(run[i], steps[i]) && run[i + 1] == Next(run[i], steps[i])
  }

  // The invariant

  type Issued = map<Id, seq<Entry>>

  function Count(h: Issued, a: Id): nat { if a in h then |h[a]| else 0 }

  /** The `n`-th entry of author `a`, counting from one. */
  function Nth(h: Issued, a: Id, n: nat): Entry
    requires 1 <= n <= Count(h, a)
  {
    h[a][n - 1]
  }

  ghost predicate IsIssued(h: Issued, e: Entry) {
    1 <= Seq(e) <= Count(h, e.data.id) && Nth(h, e.data.id, Seq(e)) == e
  }

  /** `c` counts only issued entries and dominates the whole stamp of each entry it counts. */
  ghost predicate Known(h: Issued, c: Clock) {
    && (forall a | a in c :: 1 <= c[a] <= Count(h, a))
    && (forall a, n | a in c && 1 <= n <= c[a] :: Leq(Nth(h, a, n).clock, c))
  }

  ghost predicate WellStamped(h: Issued) {
    forall a, n | 1 <= n <= Count(h, a) :: StampOk(h, a, n)
  }

  ghost predicate StampOk(h: Issued, a: Id, n: nat)
    requires 1 <= n <= Count(h, a)
  {
    Nth(h, a, n).data.id == a && Seq(Nth(h, a, n)) == n && Known(h, Nth(h, a, n).clock)
  }

  ghost predicate DistinctStamps(h: Issued) {
    forall a, n, b, m | 1 <= n <= Count(h, a) && 1 <= m <= Count(h, b) && Nth(h, a, n).clock == Nth(h, b, m).clock ::
      a == b && n == m
  }

  ghost predicate Increasing(saved: seq<Entry>) {
    forall i, j | 0 <= i < j < |saved| && saved[i].data.id == saved[j].data.id :: Seq(saved[i]) < Seq(saved[j])
  }

  ghost predicate Ascending(log: seq<Entry>) {
    forall i, j | 0 <= i < j < |log| :: Seq(log[i]) < Seq(log[j])
  }

  /** The clock is the least upper bound of the saved stamps. */
  ghost predicate ClockIsJoin(r: Replica) {
    && Bounds(r.clock, r.saved)
    && (forall u: Clock {:trigger Bounds(u, r.saved)} :: Bounds(u, r.saved) ==> Leq(r.clock, u))
  }

  ghost predicate Bounds(u: Clock, saved: seq<Entry>) { forall e | e in saved :: Leq(e.clock, u) }

  ghost predicate ReplicaOk(h: Issued, r: Replica) {
    && Known(h, r.clock)
    && (forall e | e in r.saved :: IsIssued(h, e))
    && Increasing(r.saved)
    && ClockIsJoin(r)
  }

  ghost predicate Inv(s: Sys) {
    && 0 !in s.world && s.issued.Keys == s.world.Keys
    && WellStamped(s.issued) && DistinctStamps(s.issued)
    && WorldOk(s.issued, s.world)
    && OwnCounts(s.issued, s.world)
  }

  ghost predicate WorldOk(h: Issued, w: World) { forall n | n in w :: ReplicaOk(h, w[n]) }

  /** Each author has seen all of its own entries: they are stamped at its own journal. */
  ghost predicate OwnCounts(h: Issued, w: World) { forall a | a in w :: At(w[a].clock, a) == Count(h, a) }

  // One journal at a time

  lemma TakeKeepsJoin(r: Replica, e: Entry)
    requires ClockIsJoin(r)
    ensures ClockIsJoin(Take(r, e))
  {
    var t := Take(r, e);
    MergeIsLeastUpperBound(r.clock, e.clock);
    forall x | x in t.saved ensures Leq(x.clock, t.clock) {
      if x in r.saved {
        LeqIsPartialOrder(x.clock, r.clock, t.clock);
      }
    }
    forall u: Clock | Bounds(u, t.saved) ensures Leq(t.clock, u) {
      assert forall x | x in r.saved :: x in t.saved;
      assert Bounds(u, r.saved);
      assert e in t.saved;
    }
  }

  /** On a journal whose clock dominates its stamps the store never objects: the clock test decides alone. */
  lemma DuplicateBranchUnreachable(r: Replica, e: Entry)
    requires ClockIsJoin(r) && IsNext(e.clock, r.clock, e.data.id)
    ensures !HasStamp(r.saved, e.clock) && Admits(r, e)
  {
    NextIsNew(e.clock, r.clock, e.data.id);
    forall i | 0 <= i < |r.saved| ensures r.saved[i].clock != e.clock {
      assert r.saved[i] in r.saved;
    }
  }

  /** What the clock already counts is refused. */
  lemma CoveredIsRefused(r: Replica, e: Entry)
    requires Seq(e) <= At(r.clock, e.data.id)
    ensures !Admits(r, e) && Admit(r, e) == r
  {}

  // Preservation

  lemma KnownMerge(h: Issued, c: Clock, d: Clock)
    requires Known(h, c) && Known(h, d)
    ensures Known(h, Merge(c, d))
  {
    var m := Merge(c, d);
    MergeIsLeastUpperBound(c, d);
    forall a, n | a in m && 1 <= n <= m[a] ensures Leq(Nth(h, a, n).clock, m) {
      if n <= At(c, a) {
        LeqIsPartialOrder(Nth(h, a, n).clock, c, m);
      } else {
        LeqIsPartialOrder(Nth(h, a, n).clock, d, m);
      }
    }
  }

  lemma TakeKeepsOk(h: Issued, r: Replica, e: Entry)
    requires ReplicaOk(h, r) && IsIssued(h, e) && Known(h, e.clock) && Admits(r, e)
    ensures ReplicaOk(h, Take(r, e))
  {
    TakeKeepsJoin(r, e);
    KnownMerge(h, r.clock, e.clock);
    var t := Take(r, e);
    forall i, j | 0 <= i < j < |t.saved| && t.saved[i].data.id == t.saved[j].data.id
      ensures Seq(t.saved[i]) < Seq(t.saved[j])
    {
      if j == |r.saved| {
        assert t.saved[i] in r.saved;
        assert Leq(t.saved[i].clock, r.clock);
        assert e.data.id in t.saved[i].clock;
      }
    }
  }

  lemma DeliverKeepsInv(s: Sys, n: Id, e: Entry)
    requires Inv(s) && n in s.world && IsIssued(s.issued, e)
    ensures Inv(Next(s, Deliver(n, e)))
  {
    assert StampOk(s.issued, e.data.id, Seq(e));
    AdmitKeepsOk(s.issued, s.world[n], e);
    AdmitKeepsCount(s.issued, s.world[n], e, n);
  }

  lemma AdmitKeepsOk(h: Issued, r: Replica, e: Entry)
    requires ReplicaOk(h, r) && IsIssued(h, e) && Known(h, e.clock)
    ensures ReplicaOk(h, Admit(r, e))
  {
    if Admits(r, e) {
      TakeKeepsOk(h, r, e);
    }
  }

  lemma AdmitKeepsCount(h: Issued, r: Replica, e: Entry, a: Id)
    requires Known(h, e.clock) && At(r.clock, a) == Count(h, a)
    ensures At(Admit(r, e).clock, a) == Count(h, a)
  {
    MergeKeepsCount(h, r.clock, e.clock, a);
  }

  lemma MergeKeepsCount(h: Issued, c: Clock, d: Clock, a: Id)
    requires Known(h, d) && At(c, a) == Count(h, a)
    ensures At(Merge(c, d), a) == Count(h, a)
  {
    assert At(d, a) <= Count(h, a);
    MergeIsLeastUpperBound(c, d);
  }

  /** `k` is the history `h` after author `a` issued one more entry `e`. */
  ghost predicate Grew(h: Issued, k: Issued, a: Id, e: Entry) {
    a in h && k == h[a := h[a] + [e]]
  }

  lemma NthGrows(h: Issued, k: Issued, a: Id, e: Entry, b: Id, n: nat)
    requires Grew(h, k, a, e) && 1 <= n <= Count(k, b)
    ensures if b == a && n == Count(k, a) then Nth(k, b, n) == e
            else n <= Count(h, b) && Nth(k, b, n) == Nth(h, b, n)
  {}

  lemma KnownGrows(h: Issued, k: Issued, a: Id, e: Entry, c: Clock)
    requires Grew(h, k, a, e) && Known(h, c)
    ensures Known(k, c)
  {
    forall b, n | b in c && 1 <= n <= c[b] ensures Leq(Nth(k, b, n).clock, c) {
      NthGrows(h, k, a, e, b, n);
    }
  }

  /** Ticking a known clock of the author gives a stamp that is known once it is issued. */
  lemma TickIsKnown(h: Issued, k: Issued, a: Id, e: Entry, c: Clock)
    requires Known(h, c) && At(c, a) == Count(h, a)
    requires Grew(h, k, a, e) && e.clock == Tick(c, a)
    ensures Known(k, e.clock)
  {
    TickIsNext(c, a);
    forall b, n | b in e.clock && 1 <= n <= e.clock[b] ensures Leq(Nth(k, b, n).clock, e.clock) {
      NthGrows(h, k, a, e, b, n);
      if !(b == a && n == Count(k, a)) {
        assert Leq(Nth(h, b, n).clock, c);
        LeqIsPartialOrder(Nth(h, b, n).clock, c, e.clock);
      }
    }
  }

  lemma AppendIsAdmitted(r: Replica, data: Data)
    requires ClockIsJoin(r)
    ensures Admits(r, Stamped(r, data))
    ensures Take(r, Stamped(r, data)).clock == Tick(r.clock, data.id)
  {
    TickIsNext(r.clock, data.id);
    DuplicateBranchUnreachable(r, Stamped(r, data));
  }

  lemma GrowKeepsWellStamped(h: Issued, k: Issued, a: Id, e: Entry)
    requires WellStamped(h) && Grew(h, k, a, e)
    requires e.data.id == a && Seq(e) == Count(k, a) && Known(k, e.clock)
    ensures WellStamped(k)
  {
    forall b, n | 1 <= n <= Count(k, b) ensures StampOk(k, b, n) {
      NthGrows(h, k, a, e, b, n);
      if !(b == a && n == Count(k, a)) {
        assert StampOk(h, b, n);
        KnownGrows(h, k, a, e, Nth(h, b, n).clock);
      }
    }
  }

  lemma NewStampDiffers(h: Issued, k: Issued, a: Id, e: Entry, b: Id, n: nat)
    requires WellStamped(h) && Grew(h, k, a, e) && Seq(e) == Count(k, a) && e.data.id == a
    requires 1 <= n <= Count(k, b) && Nth(k, b, n).clock == e.clock
    ensures b == a && n == Count(k, a)
  {
    NthGrows(h, k, a, e, b, n);
    assert n <= Count(h, b) ==> StampOk(h, b, n);
  }

  lemma GrowKeepsDistinct(h: Issued, k: Issued, a: Id, e: Entry)
    requires WellStamped(h) && DistinctStamps(h) && Grew(h, k, a, e) && Seq(e) == Count(k, a) && e.data.id == a
    ensures DistinctStamps(k)
  {
    forall b, n, d, m | 1 <= n <= Count(k, b) && 1 <= m <= Count(k, d) && Nth(k, b, n).clock == Nth(k, d, m).clock
      ensures b == d && n == m
    {
      NthGrows(h, k, a, e, b, n);
      NthGrows(h, k, a, e, d, m);
      if Nth(k, b, n).clock == e.clock {
        NewStampDiffers(h, k, a, e, b, n);
        NewStampDiffers(h, k, a, e, d, m);
      }
    }
  }

  lemma ReplicaGrows(h: Issued, k: Issued, a: Id, e: Entry, r: Replica)
    requires Grew(h, k, a, e) && ReplicaOk(h, r)
    ensures ReplicaOk(k, r)
  {
    KnownGrows(h, k, a, e, r.clock);
    forall x | x in r.saved ensures IsIssued(k, x) {
      NthGrows(h, k, a, e, x.data.id, Seq(x));
    }
  }

  lemma AppendKeepsInv(s: Sys, a: Id, data: Data)
    requires Inv(s) && Enabled(s, Append(a, data))
    ensures Inv(Next(s, Append(a, data)))
    ensures IsIssued(Next(s, Append(a, data)).issued, Stamped(s.world[a], data))
  {
    var h, r, e := s.issued, s.world[a], Stamped(s.world[a], data);
    assert ReplicaOk(h, r);
    AppendIsAdmitted(r, data);
    var k := Next(s, Append(a, data)).issued;
    assert Grew(h, k, a, e);
    TickIsKnown(h, k, a, e, r.clock);
    GrowKeepsWellStamped(h, k, a, e);
    GrowKeepsDistinct(h, k, a, e);
    NthGrows(h, k, a, e, a, Count(k, a));
    forall m | m in s.world ensures ReplicaOk(k, s.world[m]) {
      ReplicaGrows(h, k, a, e, s.world[m]);
    }
    TakeKeepsOk(k, r, e);
  }

  /** The invariant holds in every state of every run, whatever is delivered where and when. */
  lemma {:induction false} RunKeepsInv(run: seq<Sys>, steps: seq<Step>, k: nat)
    requires IsRun(run, steps) && k < |run|
    ensures Inv(run[k])
    decreases k
  {
    if k == 0 {
      assert forall c: Clock :: Leq(map[], c);
    } else {
      RunKeepsInv(run, steps, k - 1);
      assert StepAt(run, steps, k - 1);
      match steps[k - 1]
      case Append(a, data) => AppendKeepsInv(run[k - 1], a, data);
      case Deliver(n, e) => DeliverKeepsInv(run[k - 1], n, e);
    }
  }

  // What the invariant says

  /** Vector clocks mean what they should, even with deliveries in any order: (author, sequence) and
      stamps both identify an entry, and a clock that counts an entry dominates its whole stamp. */
  lemma StampsIdentifyAndDominate(run: seq<Sys>, steps: seq<Step>, k: nat)
    requires IsRun(run, steps) && k < |run|
    ensures forall n, e | n in run[k].world && e in run[k].world[n].saved ::
              IsIssued(run[k].issued, e) && Valid(e.clock) && 1 <= Seq(e)
    ensures forall x, y | IsIssued(run[k].issued, x) && IsIssued(run[k].issued, y) ::
              (x == y <==> x.data.id == y.data.id && Seq(x) == Seq(y)) && (x == y <==> x.clock == y.clock)
    ensures forall n, x | n in run[k].world && IsIssued(run[k].issued, x) ::
              Leq(x.clock, run[k].world[n].clock) <==> Seq(x) <= At(run[k].world[n].clock, x.data.id)
    ensures forall x, y | IsIssued(run[k].issued, x) && IsIssued(run[k].issued, y) ::
              Leq(x.clock, y.clock) <==> Seq(x) <= At(y.clock, x.data.id)
  {
    RunKeepsInv(run, steps, k);
    var s := run[k];
    forall n, e | n in s.world && e in s.world[n].saved ensures IsIssued(s.issued, e) && Valid(e.clock) {
      assert ReplicaOk(s.issued, s.world[n]);
      IssuedStampIsKnown(s.issued, e);
      assert Count(s.issued, 0) == 0;
    }
    forall x, y | IsIssued(s.issued, x) && IsIssued(s.issued, y)
      ensures x == y <==> x.data.id == y.data.id && Seq(x) == Seq(y)
      ensures x == y <==> x.clock == y.clock
      ensures Leq(x.clock, y.clock) <==> Seq(x) <= At(y.clock, x.data.id)
    {
      IssuedStampIsKnown(s.issued, y);
      CountedIsDominated(s.issued, x, y.clock);
    }
    forall n, x | n in s.world && IsIssued(s.issued, x)
      ensures Leq(x.clock, s.world[n].clock) <==> Seq(x) <= At(s.world[n].clock, x.data.id)
    {
      assert ReplicaOk(s.issued, s.world[n]);
      CountedIsDominated(s.issued, x, s.world[n].clock);
    }
  }

  lemma IssuedStampIsKnown(h: Issued, e: Entry)
    requires WellStamped(h) && IsIssued(h, e)
    ensures Known(h, e.clock)
  {
    assert StampOk(h, e.data.id, Seq(e));
  }

  /** For stamps and clocks of the system, the pointwise order is a one-component test. */
  lemma CountedIsDominated(h: Issued, x: Entry, c: Clock)
    requires IsIssued(h, x) && Known(h, c)
    ensures Leq(x.clock, c) <==> Seq(x) <= At(c, x.data.id)
  {
    assert x.data.id in x.clock;
    if Seq(x) <= At(c, x.data.id) {
      assert Leq(Nth(h, x.data.id, Seq(x)).clock, c);
    }
  }

  /** On every run a journal's clock is the least upper bound of the stamps it saved, so no stamp that
      passes the clock test is in the store already. */
  lemma ClockIsLeastBoundOfSaved(run: seq<Sys>, steps: seq<Step>, k: nat, n: Id)
    requires IsRun(run, steps) && k < |run| && n in run[k].world
    ensures ClockIsJoin(run[k].world[n])
    ensures forall e: Entry | IsNext(e.clock, run[k].world[n].clock, e.data.id) :: !HasStamp(run[k].world[n].saved, e.clock)
  {
    RunKeepsInv(run, steps, k);
    var r := run[k].world[n];
    assert ReplicaOk(run[k].issued, r);
    forall e: Entry | IsNext(e.clock, r.clock, e.data.id) ensures !HasStamp(r.saved, e.clock) {
      DuplicateBranchUnreachable(r, e);
    }
  }

  /** Clocks and stores only grow along a run. */
  lemma {:induction false} StoresOnlyGrow(run: seq<Sys>, steps: seq<Step>, i: nat, j: nat)
    requires IsRun(run, steps) && i <= j < |run|
    ensures run[j].world.Keys == run[i].world.Keys
    ensures forall n | n in run[i].world ::
              Leq(run[i].world[n].clock, run[j].world[n].clock) && run[i].world[n].saved <= run[j].world[n].saved
    decreases j
  {
    if i < j {
      StoresOnlyGrow(run, steps, i, j - 1);
      assert StepAt(run, steps, j - 1);
      forall n | n in run[i].world
        ensures Leq(run[i].world[n].clock, run[j].world[n].clock) && run[i].world[n].saved <= run[j].world[n].saved
      {
        StepGrows(run[j - 1], steps[j - 1], n);
        LeqIsPartialOrder(run[i].world[n].clock, run[j - 1].world[n].clock, run[j].world[n].clock);
      }
    }
  }

  lemma StepGrows(s: Sys, step: Step, n: Id)
    requires Enabled(s, step) && n in s.world
    ensures n in Next(s, step).world
    ensures Leq(s.world[n].clock, Next(s, step).world[n].clock)
    ensures s.world[n].saved <= Next(s, step).world[n].saved
  {
    forall e: Entry ensures Leq(s.world[n].clock, Take(s.world[n], e).clock) {
      MergeIsLeastUpperBound(s.world[n].clock, e.clock);
    }
  }

  /** An entry its clock already counts, accepted or skipped, is refused by a journal forever after. */
  lemma RefusedForever(run: seq<Sys>, steps: seq<Step>, i: nat, j: nat, n: Id, e: Entry)
    requires IsRun(run, steps) && i <= j < |run| && n in run[i].world
    requires Seq(e) <= At(run[i].world[n].clock, e.data.id)
    ensures n in run[j].world && !Admits(run[j].world[n], e)
  {
    StoresOnlyGrow(run, steps, i, j);
    CoveredIsRefused(run[j].world[n], e);
  }

  /** Each author's log at each journal has strictly ascending sequence numbers, all counted by the
      clock, so it has no more lines than the clock's count. */
  lemma LogsFitClock(run: seq<Sys>, steps: seq<Step>, k: nat, n: Id, a: Id)
    requires IsRun(run, steps) && k < |run| && n in run[k].world
    ensures var log := ByAuthor(run[k].world[n].saved, a);
            && |log| <= At(run[k].world[n].clock, a)
            && Ascending(log)
            && (forall e | e in log :: 1 <= Seq(e) <= At(run[k].world[n].clock, a))
  {
    RunKeepsInv(run, steps, k);
    assert ReplicaOk(run[k].issued, run[k].world[n]);
    ReplicaLogFits(run[k].issued, run[k].world[n], a);
  }

  lemma ReplicaLogFits(h: Issued, r: Replica, a: Id)
    requires ReplicaOk(h, r)
    ensures var log := ByAuthor(r.saved, a);
            && |log| <= At(r.clock, a)
            && Ascending(log)
            && (forall e | e in log :: 1 <= Seq(e) <= At(r.clock, a))
  {
    var log := ByAuthor(r.saved, a);
    ByAuthorIncreasing(r.saved, a);
    ByAuthorMembers(r.saved, a);
    forall e | e in log ensures 1 <= Seq(e) <= At(r.clock, a) {
      assert e in r.saved && IsIssued(h, e) && Leq(e.clock, r.clock);
      assert a in e.clock;
    }
    AscendingIsShort(log, At(r.clock, a));
  }

  lemma {:induction false} ByAuthorIncreasing(list: seq<Entry>, a: Id)
    requires Increasing(list)
    ensures Ascending(ByAuthor(list, a))
  {
    if list != [] {
      var rest := ByAuthor(list[1..], a);
      assert forall i | 0 <= i < |list[1..]| :: list[1..][i] == list[i + 1];
      ByAuthorIncreasing(list[1..], a);
      ByAuthorMembers(list[1..], a);
      if list[0].data.id == a {
        forall e | e in rest ensures Seq(list[0]) < Seq(e) {
          var i :| 0 <= i < |list[1..]| && list[1..][i] == e;
        }
        AscendingPrepend(list[0], rest);
      }
    }
  }

  lemma AscendingPrepend(e: Entry, rest: seq<Entry>)
    requires Ascending(rest)
    requires forall x | x in rest :: Seq(e) < Seq(x)
    ensures Ascending([e] + rest)
  {
    forall j | 0 <= j < |rest| ensures rest[j] in rest {}
  }

  lemma {:induction false} AscendingIsShort(log: seq<Entry>, max: nat)
    requires Ascending(log)
    requires forall e | e in log :: 1 <= Seq(e) <= max
    ensures |log| <= max
    decreases log
  {
    if log != [] {
      var last, front := log[|log| - 1], log[..|log| - 1];
      assert last in log;
      forall e | e in front ensures 1 <= Seq(e) <= Seq(last) - 1 {
        assert e in log;
      }
      AscendingIsShort(front, Seq(last) - 1);
    }
  }
}
