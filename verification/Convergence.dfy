/** When journals with equal clocks hold equal stores. */
module Convergence {
  import opened Clocks
  import opened Entries
  import opened Flooding
  import opened Runs

  /** Everything the entry was stamped on top of is already counted here. */
  ghost predicate Causal(r: Replica, e: Entry) {
    forall a | a in e.clock && a != e.data.id :: e.clock[a] <= At(r.clock, a)
  }

  /** A run in which every accepted delivery respects causal order. */
  ghost predicate IsCausalRun(run: seq<Sys>, steps: seq<Step>) {
    && IsRun(run, steps)
    && forall i | 0 <= i < |steps| :: CausalAt(run, steps, i)
  }

  ghost predicate CausalAt(run: seq<Sys>, steps: seq<Step>, i: nat)
    requires |run| == |steps| + 1 && i < |steps|
  {
    StepAt(run, steps, i) && CausalStep(run[i], steps[i])
  }

  ghost predicate CausalStep(s: Sys, step: Step)
    requires Enabled(s, step)
  {
    step.Deliver? && Admits(s.world[step.to], step.e) ==> Causal(s.world[step.to], step.e)
  }

  /** The journal holds exactly entries 1..clock[a] of each author, once each, in order. */
  ghost predicate GapFree(h: Issued, r: Replica) {
    forall a | a in h :: LogIsPrefix(h, r, a)
  }

  ghost predicate LogIsPrefix(h: Issued, r: Replica, a: Id)
    requires a in h
  {
    At(r.clock, a) <= |h[a]| && ByAuthor(r.saved, a) == h[a][..At(r.clock, a)]
  }

  /** Accepting an entry leaves no gap exactly when it arrives in causal order. */
  lemma GapFreeExactlyWhenCausal(h: Issued, r: Replica, e: Entry)
    requires WellStamped(h) && ReplicaOk(h, r) && GapFree(h, r) && IsIssued(h, e) && Admits(r, e)
    ensures GapFree(h, Take(r, e)) <==> Causal(r, e)
  {
    IssuedStampIsKnown(h, e);
    var t := Take(r, e);
    forall a | a in h ensures LogIsPrefix(h, t, a) <==> (a in e.clock && a != e.data.id ==> e.clock[a] <= At(r.clock, a)) {
      assert LogIsPrefix(h, r, a);
      LogAfterTake(h, r, e, a);
    }
    if GapFree(h, t) {
      forall a | a in e.clock && a != e.data.id ensures e.clock[a] <= At(r.clock, a) {
        assert a in h;
        assert LogIsPrefix(h, t, a);
      }
    }
  }

  lemma LogAfterTake(h: Issued, r: Replica, e: Entry, a: Id)
    requires a in h && LogIsPrefix(h, r, a) && IsIssued(h, e) && Known(h, e.clock) && Admits(r, e)
    ensures LogIsPrefix(h, Take(r, e), a) <==> (a in e.clock && a != e.data.id ==> e.clock[a] <= At(r.clock, a))
  {
    var t, n, m := Take(r, e), At(r.clock, a), At(Merge(r.clock, e.clock), a);
    ByAuthorAppend(r.saved, e, a);
    MergeIsLeastUpperBound(r.clock, e.clock);
    assert m == if n < At(e.clock, a) then At(e.clock, a) else n;
    assert m <= |h[a]|;
    if a == e.data.id {
      assert h[a][..n + 1] == h[a][..n] + [h[a][n]];
      assert Nth(h, a, n + 1) == e;
    } else {
      assert |h[a][..m]| == m && |h[a][..n]| == n;
    }
  }

  lemma AdmitKeepsGapFree(h: Issued, r: Replica, e: Entry)
    requires WellStamped(h) && ReplicaOk(h, r) && GapFree(h, r) && IsIssued(h, e)
    requires Admits(r, e) ==> Causal(r, e)
    ensures GapFree(h, Admit(r, e))
  {
    if Admits(r, e) {
      GapFreeExactlyWhenCausal(h, r, e);
    }
  }

  lemma GrowKeepsGapFree(h: Issued, k: Issued, a: Id, e: Entry, r: Replica)
    requires Grew(h, k, a, e) && GapFree(h, r)
    ensures GapFree(k, r)
  {
    forall b | b in k ensures LogIsPrefix(k, r, b) {
      assert LogIsPrefix(h, r, b);
      assert k[b][..At(r.clock, b)] == h[b][..At(r.clock, b)];
    }
  }

  ghost predicate WorldGapFree(h: Issued, w: World) { forall n | n in w :: GapFree(h, w[n]) }

  ghost predicate AllGapFree(s: Sys) { WorldGapFree(s.issued, s.world) }

  lemma AppendKeepsGapFree(s: Sys, a: Id, data: Data)
    requires Inv(s) && Enabled(s, Append(a, data)) && AllGapFree(s)
    ensures AllGapFree(Next(s, Append(a, data)))
  {
    var r, e, t := s.world[a], Stamped(s.world[a], data), Next(s, Append(a, data));
    assert ReplicaOk(s.issued, r);
    AppendIsAdmitted(r, data);
    AppendKeepsInv(s, a, data);
    forall n | n in s.world ensures GapFree(t.issued, s.world[n]) {
      GrowKeepsGapFree(s.issued, t.issued, a, e, s.world[n]);
    }
    ReplicaGrows(s.issued, t.issued, a, e, r);
    AdmitKeepsGapFree(t.issued, r, e);
    UpdateGapFree(t.issued, s.world, a, Take(r, e));
  }

  lemma DeliverKeepsGapFree(s: Sys, n: Id, e: Entry)
    requires Inv(s) && Enabled(s, Deliver(n, e)) && AllGapFree(s)
    requires Admits(s.world[n], e) ==> Causal(s.world[n], e)
    ensures AllGapFree(Next(s, Deliver(n, e)))
  {
    assert ReplicaOk(s.issued, s.world[n]);
    AdmitKeepsGapFree(s.issued, s.world[n], e);
    UpdateGapFree(s.issued, s.world, n, Admit(s.world[n], e));
  }

  lemma UpdateGapFree(h: Issued, w: World, n: Id, r: Replica)
    requires GapFree(h, r) && WorldGapFree(h, w)
    ensures WorldGapFree(h, w[n := r])
  {}

  lemma InitIsGapFree(s: Sys)
    requires Init(s)
    ensures AllGapFree(s)
  {
    forall n, a | n in s.world && a in s.issued ensures LogIsPrefix(s.issued, s.world[n], a) {}
  }

  lemma CausalStepKeepsGapFree(s: Sys, step: Step)
    requires Inv(s) && Enabled(s, step) && AllGapFree(s)
    requires CausalStep(s, step)
    ensures AllGapFree(Next(s, step))
  {
    match step
    case Append(a, data) => AppendKeepsGapFree(s, a, data);
    case Deliver(n, e) => DeliverKeepsGapFree(s, n, e);
  }

  lemma {:induction false} CausalRunIsGapFree(run: seq<Sys>, steps: seq<Step>, k: nat)
    requires IsCausalRun(run, steps) && k < |run|
    ensures AllGapFree(run[k])
    decreases k
  {
    if k == 0 {
      InitIsGapFree(run[0]);
    } else {
      CausalRunIsGapFree(run, steps, k - 1);
      RunKeepsInv(run, steps, k - 1);
      assert CausalAt(run, steps, k - 1);
      CausalStepKeepsGapFree(run[k - 1], steps[k - 1]);
    }
  }

  // Equal clocks, equal stores

  lemma {:induction false} CountByAuthor(list: seq<Entry>, e: Entry)
    ensures multiset(list)[e] == multiset(ByAuthor(list, e.data.id))[e]
  {
    if list != [] {
      CountByAuthor(list[1..], e);
      assert list == [list[0]] + list[1..];
    }
  }

  lemma SameLogsSameEntries(l1: seq<Entry>, l2: seq<Entry>)
    requires forall a: Id :: ByAuthor(l1, a) == ByAuthor(l2, a)
    ensures multiset(l1) == multiset(l2)
  {
    forall e: Entry ensures multiset(l1)[e] == multiset(l2)[e] {
      CountByAuthor(l1, e);
      CountByAuthor(l2, e);
    }
  }

  lemma GapFreeTwins(h: Issued, r: Replica, q: Replica)
    requires ReplicaOk(h, r) && ReplicaOk(h, q) && GapFree(h, r) && GapFree(h, q)
    requires r.clock == q.clock
    ensures forall a: Id :: ByAuthor(r.saved, a) == ByAuthor(q.saved, a)
    ensures multiset(r.saved) == multiset(q.saved)
  {
    forall a: Id ensures ByAuthor(r.saved, a) == ByAuthor(q.saved, a) {
      if a in h {
        assert LogIsPrefix(h, r, a) && LogIsPrefix(h, q, a);
      } else {
        UnknownAuthorHasNoLog(h, r, a);
        UnknownAuthorHasNoLog(h, q, a);
      }
    }
    SameLogsSameEntries(r.saved, q.saved);
  }

  lemma UnknownAuthorHasNoLog(h: Issued, r: Replica, a: Id)
    requires ReplicaOk(h, r) && a !in h
    ensures ByAuthor(r.saved, a) == []
  {
    ReplicaLogFits(h, r, a);
    assert At(r.clock, a) == 0;
  }

  /** Convergence: on every run whose deliveries respect causal order, a journal holds exactly the
      entries its clock counts, so journals with equal clocks hold the same logs and the same entries. */
  lemma EqualClocksEqualStores(run: seq<Sys>, steps: seq<Step>, k: nat, n: Id, m: Id)
    requires IsCausalRun(run, steps) && k < |run| && n in run[k].world && m in run[k].world
    requires run[k].world[n].clock == run[k].world[m].clock
    ensures GapFree(run[k].issued, run[k].world[n])
    ensures forall a: Id :: ByAuthor(run[k].world[n].saved, a) == ByAuthor(run[k].world[m].saved, a)
    ensures multiset(run[k].world[n].saved) == multiset(run[k].world[m].saved)
  {
    RunKeepsInv(run, steps, k);
    CausalRunIsGapFree(run, steps, k);
    assert ReplicaOk(run[k].issued, run[k].world[n]) && ReplicaOk(run[k].issued, run[k].world[m]);
    GapFreeTwins(run[k].issued, run[k].world[n], run[k].world[m]);
  }

  // What goes wrong out of causal order

  /** Accepting `e` ahead of entry `c` of author `a` leaves that entry counted and unsaved. */
  lemma SkipLeavesUnsaved(h: Issued, r: Replica, e: Entry, a: Id, c: nat)
    requires WellStamped(h) && ReplicaOk(h, r) && IsIssued(h, e)
    requires a in e.clock && a != e.data.id && c == e.clock[a] && At(r.clock, a) < c
    ensures 1 <= c <= Count(h, a)
    ensures var x := Nth(h, a, c);
            x.data.id == a && Seq(x) == c && x !in Take(r, e).saved && c <= At(Take(r, e).clock, a)
  {
    IssuedStampIsKnown(h, e);
    assert StampOk(h, a, c);
    MergeIsLeastUpperBound(r.clock, e.clock);
  }

  /** What is counted and unsaved stays so, and is refused. */
  lemma StaysSkipped(run: seq<Sys>, steps: seq<Step>, i: nat, j: nat, n: Id, x: Entry)
    requires IsRun(run, steps) && i <= j < |run| && n in run[i].world && IsIssued(run[i].issued, x)
    requires Seq(x) <= At(run[i].world[n].clock, x.data.id) && x !in run[i].world[n].saved
    ensures n in run[j].world && x !in run[j].world[n].saved && !Admits(run[j].world[n], x)
    ensures IsIssued(run[j].issued, x)
  {
    IssuedOnlyGrows(run, steps, i, j);
    StaysUnsaved(run, steps, i, j, n, x);
    RefusedForever(run, steps, i, j, n, x);
  }

  /** The same at step `i` of a run. */
  lemma SkippedAtStep(run: seq<Sys>, steps: seq<Step>, i: nat, to: Id, e: Entry, a: Id)
    requires IsRun(run, steps) && i < |steps| && steps[i] == Deliver(to, e) && to in run[i].world
    requires Admits(run[i].world[to], e) && a in e.clock && a != e.data.id && At(run[i].world[to].clock, a) < e.clock[a]
    ensures to in run[i + 1].world && 1 <= e.clock[a] <= Count(run[i + 1].issued, a)
    ensures var x := Nth(run[i + 1].issued, a, e.clock[a]);
            && x.data.id == a && Seq(x) == e.clock[a] && IsIssued(run[i + 1].issued, x)
            && x !in run[i + 1].world[to].saved && e.clock[a] <= At(run[i + 1].world[to].clock, a)
  {
    assert StepAt(run, steps, i);
    RunKeepsInv(run, steps, i);
    assert ReplicaOk(run[i].issued, run[i].world[to]);
    SkipLeavesUnsaved(run[i].issued, run[i].world[to], e, a, e.clock[a]);
  }

  /** An entry accepted ahead of its dependencies makes the journal refuse them for the rest of the run. */
  lemma SkippedForever(run: seq<Sys>, steps: seq<Step>, i: nat, j: nat, a: Id)
    requires IsRun(run, steps) && i < j < |run| && steps[i].Deliver? && steps[i].to in run[i].world
    requires var r, e := run[i].world[steps[i].to], steps[i].e;
             Admits(r, e) && a in e.clock && a != e.data.id && At(r.clock, a) < e.clock[a]
    ensures var to, c := steps[i].to, steps[i].e.clock[a];
            && to in run[j].world
            && 1 <= c <= Count(run[j].issued, a)
            && Nth(run[j].issued, a, c) !in run[j].world[to].saved
            && !Admits(run[j].world[to], Nth(run[j].issued, a, c))
  {
    var to, e := steps[i].to, steps[i].e;
    SkippedAtStep(run, steps, i, to, e, a);
    StaysSkipped(run, steps, i + 1, j, to, Nth(run[i + 1].issued, a, e.clock[a]));
  }

  lemma {:induction false} IssuedOnlyGrows(run: seq<Sys>, steps: seq<Step>, i: nat, j: nat)
    requires IsRun(run, steps) && i <= j < |run|
    ensures forall a | a in run[i].issued :: a in run[j].issued && run[i].issued[a] <= run[j].issued[a]
    decreases j
  {
    if i < j {
      IssuedOnlyGrows(run, steps, i, j - 1);
      assert StepAt(run, steps, j - 1);
    }
  }

  lemma {:induction false} StaysUnsaved(run: seq<Sys>, steps: seq<Step>, i: nat, j: nat, n: Id, x: Entry)
    requires IsRun(run, steps) && i <= j < |run| && n in run[i].world
    requires Seq(x) <= At(run[i].world[n].clock, x.data.id) && x !in run[i].world[n].saved
    ensures n in run[j].world && x !in run[j].world[n].saved
    decreases j
  {
    if i < j {
      StaysUnsaved(run, steps, i, j - 1, n, x);
      RefusedForever(run, steps, i, j - 1, n, x);
      assert StepAt(run, steps, j - 1);
    }
  }
}
