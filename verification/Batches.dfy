/** Inserting a batch at one journal: what is accepted, what is refused, and where the clock ends. */
module Batches {
  import opened Clocks
  import opened Entries
  import opened Flooding
  import opened Runs
  import opened Convergence
  import Ledgers

  function AdmitAll(r: Replica, list: seq<Entry>): Replica
    decreases list
  {
    if list == [] then r else AdmitAll(Admit(r, list[0]), list[1..])
  }

  /** The batch has no holes above what `c` counts. */
  ghost predicate NoHoles(h: Issued, c: Clock, list: seq<Entry>) {
    && (forall e | e in list :: IsIssued(h, e))
    && forall e, m | e in list && At(c, e.data.id) < m < Seq(e) :: Nth(h, e.data.id, m) in list
  }

  lemma AdmitGrows(r: Replica, e: Entry)
    ensures Leq(r.clock, Admit(r, e).clock)
    ensures forall a: Id :: At(r.clock, a) <= At(Admit(r, e).clock, a)
  {
    MergeIsLeastUpperBound(r.clock, e.clock);
  }

  lemma HeadIsFirst(list: seq<Entry>)
    requires list != [] && Increasing(list)
    ensures forall x | x in list && x.data.id == list[0].data.id :: Seq(list[0]) <= Seq(x)
  {}

  lemma HeadIsCovered(h: Issued, r: Replica, list: seq<Entry>)
    requires WellStamped(h) && ClockIsJoin(r) && list != [] && NoHoles(h, r.clock, list) && Increasing(list)
    ensures Seq(list[0]) <= At(r.clock, list[0].data.id) + 1
    ensures Admits(r, list[0]) <==> At(r.clock, list[0].data.id) < Seq(list[0])
    ensures Seq(list[0]) <= At(Admit(r, list[0]).clock, list[0].data.id)
    ensures NoHoles(h, Admit(r, list[0]).clock, list[1..]) && Increasing(list[1..])
  {
    var e, a := list[0], list[0].data.id;
    assert e in list && a in e.clock;
    var m := Seq(e) - 1;
    assert At(r.clock, a) < m ==> StampOk(h, a, m) && Nth(h, a, m) in list;
    HeadIsFirst(list);
    if IsNext(e.clock, r.clock, a) {
      DuplicateBranchUnreachable(r, e);
      MergeIsLeastUpperBound(r.clock, e.clock);
    }
    AdmitGrows(r, e);
    var c := Admit(r, e).clock;
    assert forall x | x in list[1..] :: x in list;
    forall x, m | x in list[1..] && At(c, x.data.id) < m < Seq(x) ensures Nth(h, x.data.id, m) in list[1..] {
      assert Nth(h, x.data.id, m) in list && StampOk(h, x.data.id, m);
    }
  }

  /** The batch in one pass: every entry ends up counted, and the clock is no larger than needed. */
  lemma {:induction false} BatchCovers(h: Issued, r: Replica, list: seq<Entry>)
    requires WellStamped(h) && ReplicaOk(h, r) && NoHoles(h, r.clock, list) && Increasing(list)
    ensures ReplicaOk(h, AdmitAll(r, list))
    ensures Leq(r.clock, AdmitAll(r, list).clock)
    ensures forall e | e in list :: Leq(e.clock, AdmitAll(r, list).clock)
    decreases list
  {
    if list == [] {
      LeqIsPartialOrder(r.clock, r.clock, r.clock);
    } else {
      var e, q := list[0], Admit(r, list[0]);
      assert e in list;
      IssuedStampIsKnown(h, e);
      HeadIsCovered(h, r, list);
      AdmitKeepsOk(h, r, e);
      BatchCovers(h, q, list[1..]);
      AdmitGrows(r, e);
      LeqIsPartialOrder(r.clock, q.clock, AdmitAll(r, list).clock);
      CountedIsDominated(h, e, q.clock);
      LeqIsPartialOrder(e.clock, q.clock, AdmitAll(r, list).clock);
      assert forall x | x in list :: x == e || x in list[1..];
    }
  }

  lemma {:induction false} BatchStaysBelow(r: Replica, list: seq<Entry>, u: Clock)
    requires Leq(r.clock, u) && forall e | e in list :: Leq(e.clock, u)
    ensures Leq(AdmitAll(r, list).clock, u)
    decreases list
  {
    if list != [] {
      assert list[0] in list;
      MergeIsLeastUpperBound(r.clock, list[0].clock);
      assert forall x | x in list[1..] :: x in list;
      BatchStaysBelow(Admit(r, list[0]), list[1..], u);
    }
  }

  /** `list` is what a gap-free journal with clock `c` sends to one with clock `from`. */
  ghost predicate IsDelta(h: Issued, from: Clock, c: Clock, list: seq<Entry>) {
    && (forall e | e in list :: IsIssued(h, e) && At(from, e.data.id) < Seq(e) <= At(c, e.data.id))
    && (forall a, n | a in c && At(from, a) < n <= c[a] && n <= Count(h, a) :: Nth(h, a, n) in list)
  }

  lemma DeltaHasNoHoles(h: Issued, from: Clock, c: Clock, list: seq<Entry>)
    requires Known(h, c) && IsDelta(h, from, c, list)
    ensures NoHoles(h, from, list)
  {}

  /** Clock convergence needs only that each author's entries arrive in ascending order. */
  lemma BatchMergesClocks(h: Issued, r: Replica, c: Clock, list: seq<Entry>)
    requires WellStamped(h) && ReplicaOk(h, r) && Known(h, c) && IsDelta(h, r.clock, c, list) && Increasing(list)
    ensures AdmitAll(r, list).clock == Merge(r.clock, c)
  {
    var q, m := AdmitAll(r, list), Merge(r.clock, c);
    MergeIsLeastUpperBound(r.clock, c);
    DeltaHasNoHoles(h, r.clock, c, list);
    BatchCovers(h, r, list);
    forall e | e in list ensures Leq(e.clock, m) {
      CountedIsDominated(h, e, c);
      LeqIsPartialOrder(e.clock, c, m);
    }
    BatchStaysBelow(r, list, m);
    forall a | a in c ensures a in q.clock && c[a] <= q.clock[a] {
      if At(r.clock, a) < c[a] {
        var e := Nth(h, a, c[a]);
        assert e in list && StampOk(h, a, c[a]) && Leq(e.clock, q.clock);
        assert a in e.clock && e.clock[a] == c[a];
      } else {
        assert a in r.clock;
      }
    }
    assert Leq(m, q.clock);
    LeqIsPartialOrder(m, q.clock, m);
  }

  /** Whether every entry of an ascending batch is accepted is decided by its order alone: it must be causal. */
  lemma {:induction false} AscendingAcceptedExactlyWhenCausal(h: Issued, r: Replica, list: seq<Entry>)
    requires WellStamped(h) && DistinctStamps(h) && ReplicaOk(h, r) && NoHoles(h, r.clock, list) && Increasing(list)
    requires forall e | e in list :: At(r.clock, e.data.id) < Seq(e)
    ensures AdmitAll(r, list).saved == r.saved + list <==> Ledgers.CausalOrder(list)
    decreases list
  {
    if list == [] {
      assert r.saved + list == r.saved;
    } else {
      HeadIsAccepted(h, r, list);
      CausalOrderSplit(list);
      var q := Take(r, list[0]);
      TakeThenRest(r, list);
      assert AdmitAll(r, list) == AdmitAll(q, list[1..]);
      if forall x | x in list[1..] :: !SmallerThan(x.clock, list[0].clock) {
        AscendingAcceptedExactlyWhenCausal(h, q, list[1..]);
      } else {
        BlockedIsLost(h, r, list);
      }
    }
  }

  ghost predicate NoneTwice(list: seq<Entry>) { forall i, j | 0 <= i < j < |list| :: list[i] != list[j] }

  lemma {:induction false} CoveredShortens(r: Replica, list: seq<Entry>, i: nat)
    requires i < |list| && Seq(list[i]) <= At(r.clock, list[i].data.id)
    ensures |AdmitAll(r, list).saved| < |r.saved| + |list|
    decreases list
  {
    SavedStaysInside(Admit(r, list[0]), list[1..]);
    if i > 0 {
      AdmitGrows(r, list[0]);
      assert list[1..][i - 1] == list[i];
      CoveredShortens(Admit(r, list[0]), list[1..], i - 1);
    }
  }

  /** If every entry is accepted, each author's entries came in ascending order. */
  lemma {:induction false} AllAcceptedIsIncreasing(r: Replica, list: seq<Entry>)
    requires |AdmitAll(r, list).saved| == |r.saved| + |list|
    ensures Increasing(list)
    decreases list
  {
    if list != [] {
      var e, rest := list[0], list[1..];
      SavedStaysInside(Admit(r, e), rest);
      AllAcceptedIsIncreasing(Admit(r, e), rest);
      MergeIsLeastUpperBound(r.clock, e.clock);
      forall j | 0 <= j < |rest| && rest[j].data.id == e.data.id ensures Seq(e) < Seq(rest[j]) {
        if Seq(rest[j]) <= Seq(e) {
          CoveredShortens(Take(r, e), rest, j);
        }
      }
      assert list == [e] + rest;
    }
  }

  /** A causal batch of issued entries brings each author's entries in ascending order. */
  lemma CausalIsIncreasing(h: Issued, list: seq<Entry>)
    requires WellStamped(h) && NoneTwice(list) && Ledgers.CausalOrder(list) && forall e | e in list :: IsIssued(h, e)
    ensures Increasing(list)
  {
    forall i, j | 0 <= i < j < |list| && list[i].data.id == list[j].data.id ensures Seq(list[i]) < Seq(list[j]) {
      var x, y := list[i], list[j];
      assert x in list && y in list && x != y;
      IssuedStampIsKnown(h, x);
      CountedIsDominated(h, y, x.clock);
      SmallerIsStrictlyBelow(y.clock, x.clock);
    }
  }

  /** Whatever its order, every entry of a batch without holes is accepted if and only if the batch is causal. */
  lemma AllAcceptedExactlyWhenCausal(h: Issued, r: Replica, list: seq<Entry>)
    requires WellStamped(h) && DistinctStamps(h) && ReplicaOk(h, r) && NoHoles(h, r.clock, list) && NoneTwice(list)
    requires forall e | e in list :: At(r.clock, e.data.id) < Seq(e)
    ensures AdmitAll(r, list).saved == r.saved + list <==> Ledgers.CausalOrder(list)
  {
    if AdmitAll(r, list).saved == r.saved + list {
      AllAcceptedIsIncreasing(r, list);
    }
    if Ledgers.CausalOrder(list) {
      CausalIsIncreasing(h, list);
    }
    if Increasing(list) {
      AscendingAcceptedExactlyWhenCausal(h, r, list);
    }
  }

  lemma TakeThenRest(r: Replica, list: seq<Entry>)
    requires list != []
    ensures Take(r, list[0]).saved + list[1..] == r.saved + list
  {
    assert list == [list[0]] + list[1..];
  }

  lemma HeadIsAccepted(h: Issued, r: Replica, list: seq<Entry>)
    requires WellStamped(h) && DistinctStamps(h) && ReplicaOk(h, r) && NoHoles(h, r.clock, list) && Increasing(list)
    requires list != [] && forall e | e in list :: At(r.clock, e.data.id) < Seq(e)
    ensures Admits(r, list[0]) && ReplicaOk(h, Take(r, list[0]))
    ensures NoHoles(h, Take(r, list[0]).clock, list[1..]) && Increasing(list[1..])
    ensures forall x | x in list[1..] :: IsIssued(h, x) && At(r.clock, x.data.id) < Seq(x)
    ensures forall x | x in list[1..] ::
              At(Take(r, list[0]).clock, x.data.id) < Seq(x) <==> !SmallerThan(x.clock, list[0].clock)
  {
    var e, rest := list[0], list[1..];
    assert e in list && forall x | x in rest :: x in list;
    HeadIsCovered(h, r, list);
    IssuedStampIsKnown(h, e);
    TakeKeepsOk(h, r, e);
    assert list == [e] + rest;
    HeadBlocksExactly(h, r, e, rest);
  }

  lemma BlockedIsLost(h: Issued, r: Replica, list: seq<Entry>)
    requires ReplicaOk(h, r) && list != [] && Increasing(list) && Admits(r, list[0])
    requires forall x | x in list[1..] :: IsIssued(h, x) && At(r.clock, x.data.id) < Seq(x)
    requires exists x :: x in list[1..] && Seq(x) <= At(Take(r, list[0]).clock, x.data.id)
    ensures AdmitAll(r, list).saved != r.saved + list
  {
    var x :| x in list[1..] && Seq(x) <= At(Take(r, list[0]).clock, x.data.id);
    HeadIsNew(h, r, list, x);
    CoveredIsNeverSaved(Take(r, list[0]), list[1..], x);
    assert x in r.saved + list;
  }

  lemma HeadIsNew(h: Issued, r: Replica, list: seq<Entry>, x: Entry)
    requires ReplicaOk(h, r) && list != [] && x in list[1..] && Increasing(list)
    requires IsIssued(h, x) && At(r.clock, x.data.id) < Seq(x)
    ensures x !in r.saved + [list[0]]
  {
    var i :| 0 <= i < |list[1..]| && list[1..][i] == x;
    assert list[i + 1] == x;
    assert x.data.id in x.clock;
    assert x in r.saved ==> Leq(x.clock, r.clock);
  }

  lemma CausalOrderSplit(list: seq<Entry>)
    requires list != []
    ensures Ledgers.CausalOrder(list) <==>
            Ledgers.CausalOrder(list[1..]) && forall x | x in list[1..] :: !SmallerThan(x.clock, list[0].clock)
  {
    var rest := list[1..];
    if Ledgers.CausalOrder(list) {
      forall i, j | 0 <= i < j < |rest| ensures !SmallerThan(rest[j].clock, rest[i].clock) {
        assert rest[i] == list[i + 1] && rest[j] == list[j + 1];
      }
      forall x | x in rest ensures !SmallerThan(x.clock, list[0].clock) {
        var i :| 0 <= i < |rest| && rest[i] == x;
        assert list[i + 1] == x;
      }
    }
    if Ledgers.CausalOrder(rest) && forall x | x in rest :: !SmallerThan(x.clock, list[0].clock) {
      forall i, j | 0 <= i < j < |list| ensures !SmallerThan(list[j].clock, list[i].clock) {
        assert list[j] == rest[j - 1] && rest[j - 1] in rest;
        if i > 0 {
          assert list[i] == rest[i - 1];
        }
      }
    }
  }

  /** Accepting `e` makes a later entry refusable exactly when that entry was causally before `e`. */
  lemma HeadBlocksExactly(h: Issued, r: Replica, e: Entry, rest: seq<Entry>)
    requires WellStamped(h) && DistinctStamps(h) && ReplicaOk(h, r) && IsIssued(h, e)
    requires Increasing([e] + rest) && forall x | x in rest :: IsIssued(h, x) && At(r.clock, x.data.id) < Seq(x)
    ensures forall x | x in rest ::
              At(Take(r, e).clock, x.data.id) < Seq(x) <==> !SmallerThan(x.clock, e.clock)
  {
    IssuedStampIsKnown(h, e);
    MergeIsLeastUpperBound(r.clock, e.clock);
    forall x | x in rest ensures At(Take(r, e).clock, x.data.id) < Seq(x) <==> !SmallerThan(x.clock, e.clock) {
      CountedIsDominated(h, x, e.clock);
      SmallerIsStrictlyBelow(x.clock, e.clock);
      var i :| 0 <= i < |rest| && rest[i] == x;
      assert ([e] + rest)[i + 1] == x && ([e] + rest)[0] == e;
      assert Nth(h, x.data.id, Seq(x)) == x && Nth(h, e.data.id, Seq(e)) == e;
    }
  }

  lemma {:induction false} CoveredIsNeverSaved(r: Replica, list: seq<Entry>, x: Entry)
    requires Seq(x) <= At(r.clock, x.data.id) && x !in r.saved
    ensures x !in AdmitAll(r, list).saved
    decreases list
  {
    if list != [] {
      AdmitGrows(r, list[0]);
      CoveredIsRefused(r, x);
      CoveredIsNeverSaved(Admit(r, list[0]), list[1..], x);
    }
  }

  lemma {:induction false} SavedStaysInside(r: Replica, list: seq<Entry>)
    ensures r.saved <= AdmitAll(r, list).saved
    ensures |AdmitAll(r, list).saved| <= |r.saved| + |list|
    ensures forall e | e in AdmitAll(r, list).saved :: e in r.saved || e in list
    decreases list
  {
    if list != [] {
      SavedStaysInside(Admit(r, list[0]), list[1..]);
    }
  }

  /** With distinct new entries, saving all of them means saving the list itself. */
  lemma {:induction false} AllAcceptedExactlyWhenAllSaved(r: Replica, list: seq<Entry>)
    requires forall e | e in list :: e !in r.saved
    requires forall i, j | 0 <= i < j < |list| :: list[i] != list[j]
    ensures AdmitAll(r, list).saved == r.saved + list <==> forall e | e in list :: e in AdmitAll(r, list).saved
    decreases list
  {
    if list == [] {
      assert r.saved + list == r.saved;
    } else {
      var e, rest := list[0], list[1..];
      assert e in list && forall x | x in rest :: x in list;
      assert forall i | 0 <= i < |rest| :: rest[i] == list[i + 1];
      assert e !in rest;
      TakeThenRest(r, list);
      SavedStaysInside(Admit(r, e), rest);
      if Admits(r, e) {
        AllAcceptedExactlyWhenAllSaved(Take(r, e), rest);
        assert forall x | x in list :: x == e || x in rest;
        assert e in Take(r, e).saved;
      } else {
        assert e !in AdmitAll(r, list).saved;
        assert e in r.saved + list;
      }
    }
  }

  // Which entries of a batch are refused

  /** Whether the `i`-th entry of the batch is accepted when its turn comes. */
  predicate Accepted(r: Replica, list: seq<Entry>, i: nat)
    requires i < |list|
  {
    Admits(AdmitAll(r, list[..i]), list[i])
  }

  ghost predicate CoveredBefore(r: Replica, list: seq<Entry>, i: nat, a: Id, n: nat)
    requires i <= |list|
  {
    exists j :: 0 <= j < i && Accepted(r, list, j) && n <= At(list[j].clock, a)
  }

  lemma {:induction false} AdmitAllConcat(r: Replica, l1: seq<Entry>, l2: seq<Entry>)
    ensures AdmitAll(r, l1 + l2) == AdmitAll(AdmitAll(r, l1), l2)
    decreases l1
  {
    if l1 == [] {
      assert l1 + l2 == l2;
    } else {
      assert (l1 + l2)[0] == l1[0] && (l1 + l2)[1..] == l1[1..] + l2;
      AdmitAllConcat(Admit(r, l1[0]), l1[1..], l2);
    }
  }

  lemma PrefixStep(r: Replica, list: seq<Entry>, i: nat)
    requires i < |list|
    ensures AdmitAll(r, list[..i + 1]) == Admit(AdmitAll(r, list[..i]), list[i])
  {
    assert list[..i + 1] == list[..i] + [list[i]];
    AdmitAllConcat(r, list[..i], [list[i]]);
    assert [list[i]][1..] == [];
  }

  /** What the clock counts midway is what it counted before or what an accepted entry brought. */
  lemma {:induction false} CountsComeFromAccepted(r: Replica, list: seq<Entry>, i: nat, a: Id, n: nat)
    requires i <= |list|
    ensures n <= At(AdmitAll(r, list[..i]).clock, a) <==> n <= At(r.clock, a) || CoveredBefore(r, list, i, a, n)
  {
    if i == 0 {
      assert list[..0] == [];
    } else {
      CountsComeFromAccepted(r, list, i - 1, a, n);
      PrefixStep(r, list, i - 1);
      var q := AdmitAll(r, list[..i - 1]);
      MergeIsLeastUpperBound(q.clock, list[i - 1].clock);
      assert Accepted(r, list, i - 1) <==> Admits(q, list[i - 1]);
      CoveredBeforeStep(r, list, i - 1, a, n);
    }
  }

  lemma CoveredBeforeStep(r: Replica, list: seq<Entry>, i: nat, a: Id, n: nat)
    requires i < |list|
    ensures CoveredBefore(r, list, i + 1, a, n) <==>
            CoveredBefore(r, list, i, a, n) || (Accepted(r, list, i) && n <= At(list[i].clock, a))
  {
    if CoveredBefore(r, list, i, a, n) {
      var j :| 0 <= j < i && Accepted(r, list, j) && n <= At(list[j].clock, a);
      assert 0 <= j < i + 1;
    }
  }

  lemma {:induction false} PrefixLeavesNoHoles(h: Issued, r: Replica, list: seq<Entry>, i: nat)
    requires WellStamped(h) && ReplicaOk(h, r) && NoHoles(h, r.clock, list) && Increasing(list) && i <= |list|
    ensures ReplicaOk(h, AdmitAll(r, list[..i]))
    ensures NoHoles(h, AdmitAll(r, list[..i]).clock, list[i..]) && Increasing(list[i..])
  {
    if i == 0 {
      assert list[..0] == [] && list[0..] == list;
    } else {
      PrefixLeavesNoHoles(h, r, list, i - 1);
      PrefixStep(r, list, i - 1);
      var q, rest := AdmitAll(r, list[..i - 1]), list[i - 1..];
      assert rest[0] == list[i - 1] && rest[1..] == list[i..];
      assert rest[0] in rest;
      IssuedStampIsKnown(h, rest[0]);
      HeadIsCovered(h, q, rest);
      AdmitKeepsOk(h, q, rest[0]);
    }
  }

  /** In a delta in ascending order, an entry is refused exactly when an earlier accepted one covers its sequence number. */
  lemma RefusedExactlyWhenCovered(h: Issued, r: Replica, list: seq<Entry>, i: nat)
    requires WellStamped(h) && ReplicaOk(h, r) && NoHoles(h, r.clock, list) && Increasing(list) && i < |list|
    requires forall e | e in list :: At(r.clock, e.data.id) < Seq(e)
    ensures !Accepted(r, list, i) <==> CoveredBefore(r, list, i, list[i].data.id, Seq(list[i]))
  {
    PrefixLeavesNoHoles(h, r, list, i);
    assert list[i..][0] == list[i] && list[i] in list;
    HeadIsCovered(h, AdmitAll(r, list[..i]), list[i..]);
    CountsComeFromAccepted(r, list, i, list[i].data.id, Seq(list[i]));
  }
}
