/** A batch in any order: what the clock ends up counting is what chains of the batch carry to it. */
module Chains {
  import opened Clocks
  import opened Entries
  import opened Flooding
  import opened Runs
  import opened Batches

  /** Entries of the batch, in batch order, each of which is covered or next once the one before it is counted. */
  ghost predicate Chain(from: Clock, list: seq<Entry>, js: seq<nat>) {
    && |js| > 0
    && (forall k | 0 <= k < |js| :: js[k] < |list|)
    && Seq(list[js[0]]) <= At(from, list[js[0]].data.id) + 1
    && forall k | 0 < k < |js| :: ChainStep(list, js[k - 1], js[k])
  }

  predicate ChainStep(list: seq<Entry>, i: nat, j: nat) {
    i < j < |list| && Seq(list[j]) <= At(list[i].clock, list[j].data.id) + 1
  }

  /** Some chain among the first `i` entries ends in an entry whose stamp counts `n` entries of `a`. */
  ghost predicate CarriedBy(from: Clock, list: seq<Entry>, i: nat, a: Id, n: nat, js: seq<nat>) {
    Chain(from, list, js) && js[|js| - 1] < i && n <= At(list[js[|js| - 1]].clock, a)
  }

  ghost predicate Carried(from: Clock, list: seq<Entry>, i: nat, a: Id, n: nat) {
    exists js: seq<nat> :: CarriedBy(from, list, i, a, n, js)
  }

  lemma {:induction false} PrefixKeepsOk(h: Issued, r: Replica, list: seq<Entry>, i: nat)
    requires WellStamped(h) && ReplicaOk(h, r) && i <= |list| && forall e | e in list :: IsIssued(h, e)
    ensures ReplicaOk(h, AdmitAll(r, list[..i]))
    decreases i
  {
    if i > 0 {
      PrefixKeepsOk(h, r, list, i - 1);
      PrefixStep(r, list, i - 1);
      assert list[i - 1] in list;
      IssuedStampIsKnown(h, list[i - 1]);
      AdmitKeepsOk(h, AdmitAll(r, list[..i - 1]), list[i - 1]);
    }
  }

  lemma {:induction false} PrefixGrows(r: Replica, list: seq<Entry>, i: nat, j: nat, a: Id)
    requires i <= j <= |list|
    ensures At(AdmitAll(r, list[..i]).clock, a) <= At(AdmitAll(r, list[..j]).clock, a)
    decreases j
  {
    if i < j {
      PrefixGrows(r, list, i, j - 1, a);
      PrefixStep(r, list, j - 1);
      AdmitGrows(AdmitAll(r, list[..j - 1]), list[j - 1]);
    }
  }

  /** An entry that is next or already counted when its turn comes is dominated afterwards. */
  lemma TurnDominates(h: Issued, q: Replica, e: Entry)
    requires WellStamped(h) && ReplicaOk(h, q) && IsIssued(h, e) && Seq(e) <= At(q.clock, e.data.id) + 1
    ensures Leq(e.clock, Admit(q, e).clock)
  {
    if Seq(e) == At(q.clock, e.data.id) + 1 {
      DuplicateBranchUnreachable(q, e);
      MergeIsLeastUpperBound(q.clock, e.clock);
    } else {
      CountedIsDominated(h, e, q.clock);
      AdmitGrows(q, e);
      LeqIsPartialOrder(e.clock, q.clock, Admit(q, e).clock);
    }
  }

  lemma AtIsMonotone(c: Clock, d: Clock, a: Id)
    requires Leq(c, d)
    ensures At(c, a) <= At(d, a)
  {}

  lemma {:induction false} ChainIsCounted(h: Issued, r: Replica, list: seq<Entry>, js: seq<nat>, a: Id)
    requires WellStamped(h) && ReplicaOk(h, r) && forall e | e in list :: IsIssued(h, e)
    requires Chain(r.clock, list, js)
    ensures At(list[js[|js| - 1]].clock, a) <= At(AdmitAll(r, list[..js[|js| - 1] + 1]).clock, a)
    decreases |js|
  {
    var j := js[|js| - 1];
    var e, q := list[j], AdmitAll(r, list[..j]);
    assert e in list;
    if |js| == 1 {
      PrefixGrows(r, list, 0, j, e.data.id);
      assert list[..0] == [];
    } else {
      var front, i := js[..|js| - 1], js[|js| - 2];
      assert ChainStep(list, js[|js| - 2], js[|js| - 1]);
      forall k | 0 < k < |front| ensures ChainStep(list, front[k - 1], front[k]) {
        assert ChainStep(list, js[k - 1], js[k]);
      }
      ChainIsCounted(h, r, list, front, e.data.id);
      PrefixGrows(r, list, i + 1, j, e.data.id);
    }
    PrefixKeepsOk(h, r, list, j);
    TurnDominates(h, q, e);
    PrefixStep(r, list, j);
    AtIsMonotone(e.clock, Admit(q, e).clock, a);
  }

  lemma ChainGrows(from: Clock, list: seq<Entry>, i: nat, a: Id, n: nat, js: seq<nat>)
    requires i < |list| && Seq(list[i]) > 0 && CarriedBy(from, list, i, list[i].data.id, Seq(list[i]) - 1, js)
    requires n <= At(list[i].clock, a)
    ensures CarriedBy(from, list, i + 1, a, n, js + [i])
  {
    var ks := js + [i];
    forall k | 0 < k < |ks| ensures ChainStep(list, ks[k - 1], ks[k]) {
      if k < |js| {
        assert ChainStep(list, js[k - 1], js[k]);
      }
    }
  }

  lemma CarriedLater(from: Clock, list: seq<Entry>, i: nat, a: Id, n: nat)
    requires Carried(from, list, i, a, n)
    ensures Carried(from, list, i + 1, a, n)
  {
    var js: seq<nat> :| CarriedBy(from, list, i, a, n, js);
    assert CarriedBy(from, list, i + 1, a, n, js);
  }

  /** An entry that was next carries what its stamp counts, given how its author's earlier entries were counted. */
  lemma NextCarries(from: Clock, list: seq<Entry>, i: nat, a: Id, n: nat)
    requires i < |list| && Seq(list[i]) > 0 && n <= At(list[i].clock, a)
    requires Seq(list[i]) - 1 <= At(from, list[i].data.id) || Carried(from, list, i, list[i].data.id, Seq(list[i]) - 1)
    ensures Carried(from, list, i + 1, a, n)
  {
    if Seq(list[i]) - 1 <= At(from, list[i].data.id) {
      assert CarriedBy(from, list, i + 1, a, n, [i]);
    } else {
      var js: seq<nat> :| CarriedBy(from, list, i, list[i].data.id, Seq(list[i]) - 1, js);
      ChainGrows(from, list, i, a, n, js);
    }
  }

  /** What the clock counts midway, it counted before or a chain carried to it. */
  lemma {:induction false} CountsAreCarried(r: Replica, list: seq<Entry>, i: nat, a: Id, n: nat)
    requires i <= |list| && n <= At(AdmitAll(r, list[..i]).clock, a)
    ensures n <= At(r.clock, a) || Carried(r.clock, list, i, a, n)
    decreases i
  {
    if i == 0 {
      assert list[..0] == [];
    } else {
      var e, q := list[i - 1], AdmitAll(r, list[..i - 1]);
      PrefixStep(r, list, i - 1);
      MergeIsLeastUpperBound(q.clock, e.clock);
      if n <= At(q.clock, a) {
        CountsAreCarried(r, list, i - 1, a, n);
        if Carried(r.clock, list, i - 1, a, n) {
          CarriedLater(r.clock, list, i - 1, a, n);
        }
      } else {
        CountsAreCarried(r, list, i - 1, e.data.id, Seq(e) - 1);
        NextCarries(r.clock, list, i - 1, a, n);
      }
    }
  }

  /** Every author that `c` counts further than `from` is carried all the way. */
  ghost predicate CarriesAll(from: Clock, list: seq<Entry>, c: Clock) {
    forall a | a in c && At(from, a) < c[a] :: Carried(from, list, |list|, a, c[a])
  }

  /** Whatever the order of a batch of entries that `c` counts, the clock ends at the merge with `c` if and
      only if chains of the batch carry every author's missing count. */
  lemma ClockMergesExactlyWhenCarried(h: Issued, r: Replica, c: Clock, list: seq<Entry>)
    requires WellStamped(h) && ReplicaOk(h, r) && Known(h, c)
    requires forall e | e in list :: IsIssued(h, e) && Seq(e) <= At(c, e.data.id)
    ensures AdmitAll(r, list).clock == Merge(r.clock, c) <==> CarriesAll(r.clock, list, c)
  {
    var q := AdmitAll(r, list);
    assert list[..|list|] == list;
    MergeIsLeastUpperBound(r.clock, c);
    if q.clock == Merge(r.clock, c) {
      forall a | a in c && At(r.clock, a) < c[a] ensures Carried(r.clock, list, |list|, a, c[a]) {
        CountsAreCarried(r, list, |list|, a, c[a]);
      }
    }
    if CarriesAll(r.clock, list, c) {
      CarriedIsMerged(h, r, c, list);
    }
  }

  lemma EndsBelowMerge(h: Issued, r: Replica, c: Clock, list: seq<Entry>)
    requires Known(h, c) && forall e | e in list :: IsIssued(h, e) && Seq(e) <= At(c, e.data.id)
    ensures Leq(AdmitAll(r, list).clock, Merge(r.clock, c))
  {
    var m := Merge(r.clock, c);
    MergeIsLeastUpperBound(r.clock, c);
    forall e | e in list ensures Leq(e.clock, m) {
      CountedIsDominated(h, e, c);
      LeqIsPartialOrder(e.clock, c, m);
    }
    BatchStaysBelow(r, list, m);
  }

  lemma CarriedIsReached(h: Issued, r: Replica, c: Clock, list: seq<Entry>, a: Id)
    requires WellStamped(h) && ReplicaOk(h, r) && CarriesAll(r.clock, list, c)
    requires forall e | e in list :: IsIssued(h, e)
    ensures At(r.clock, a) <= At(AdmitAll(r, list).clock, a)
    ensures At(c, a) <= At(AdmitAll(r, list).clock, a)
  {
    assert list[..|list|] == list && list[..0] == [];
    PrefixGrows(r, list, 0, |list|, a);
    if At(r.clock, a) < At(c, a) {
      var js: seq<nat> :| CarriedBy(r.clock, list, |list|, a, c[a], js);
      ChainIsCounted(h, r, list, js, a);
      PrefixGrows(r, list, js[|js| - 1] + 1, |list|, a);
    }
  }

  lemma CarriedIsMerged(h: Issued, r: Replica, c: Clock, list: seq<Entry>)
    requires WellStamped(h) && ReplicaOk(h, r) && Known(h, c) && CarriesAll(r.clock, list, c)
    requires forall e | e in list :: IsIssued(h, e) && Seq(e) <= At(c, e.data.id)
    ensures AdmitAll(r, list).clock == Merge(r.clock, c)
  {
    var q, m := AdmitAll(r, list), Merge(r.clock, c);
    EndsBelowMerge(h, r, c, list);
    forall a | a in m ensures a in q.clock && m[a] <= q.clock[a] {
      CarriedIsReached(h, r, c, list, a);
    }
    LeqIsPartialOrder(m, q.clock, m);
  }
}
