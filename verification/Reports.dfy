/** What users see: entry lists and balances, compared between journals. */
module Reports {
  import opened Clocks
  import opened Entries
  import opened Flooding
  import opened Runs
  import opened Convergence
  import opened Listings
  import opened Agreement
  import opened Ledgers

  function Balance(r: Replica): int { PostAll(EMPTY, Listing(r)).balance }

  /** It is the sum of the values held in the rows. */
  lemma BalanceIsSumOfRows(r: Replica)
    ensures Balance(r) == Total(PostAll(EMPTY, Listing(r)).rows)
  {
    BookOfList(Listing(r));
  }

  // A listing is a permutation of the store

  lemma {:induction false} DistinctCount(list: seq<Entry>, e: Entry)
    requires forall i, j | 0 <= i < j < |list| :: list[i] != list[j]
    ensures multiset(list)[e] == if e in list then 1 else 0
  {
    if list != [] {
      var rest := list[1..];
      assert list == [list[0]] + rest;
      assert list[0] !in rest;
      DistinctCount(rest, e);
    }
  }

  lemma SameMembersSameMultiset(l1: seq<Entry>, l2: seq<Entry>)
    requires forall i, j | 0 <= i < j < |l1| :: l1[i] != l1[j]
    requires forall i, j | 0 <= i < j < |l2| :: l2[i] != l2[j]
    requires forall e :: e in l1 <==> e in l2
    ensures multiset(l1) == multiset(l2)
  {
    forall e: Entry ensures multiset(l1)[e] == multiset(l2)[e] {
      DistinctCount(l1, e);
      DistinctCount(l2, e);
    }
  }

  /** On every run each journal, whatever its plugin, lists every saved entry exactly once. */
  lemma ListingIsPermutation(s: Sys, n: Id)
    requires Inv(s) && n in s.world
    ensures multiset(Listing(s.world[n])) == multiset(s.world[n].saved)
  {
    var r := s.world[n];
    assert ReplicaOk(s.issued, r);
    ListingHoldsSaved(s, n);
    ListingIsDistinct(s.issued, r);
    SavedStampsDiffer(s.issued, r);
    SameMembersSameMultiset(Listing(r), r.saved);
  }

  // Equal clocks, equal reports

  lemma {:induction false} FileLogsDependOnLogs(ids: seq<Id>, clock: Clock, l1: seq<Entry>, l2: seq<Entry>)
    requires forall a: Id :: ByAuthor(l1, a) == ByAuthor(l2, a)
    ensures FileLogs(ids, clock, l1) == FileLogs(ids, clock, l2)
  {
    if ids != [] {
      FileLogsDependOnLogs(ids[1..], clock, l1, l2);
    }
  }

  /** On every causally delivered run, two file journals with equal clocks list the same entries in the
      same order and compute the same balance, however differently their entries arrived. */
  lemma EqualClocksEqualReports(run: seq<Sys>, steps: seq<Step>, k: nat, n: Id, m: Id)
    requires IsCausalRun(run, steps) && k < |run| && n in run[k].world && m in run[k].world
    requires run[k].world[n].clock == run[k].world[m].clock
    requires run[k].world[n].plugin == run[k].world[m].plugin == File
    ensures Listing(run[k].world[n]) == Listing(run[k].world[m])
    ensures Balance(run[k].world[n]) == Balance(run[k].world[m])
  {
    var r, q := run[k].world[n], run[k].world[m];
    EqualClocksEqualStores(run, steps, k, n, m);
    FileLogsDependOnLogs(SortedIds(r.clock.Keys), r.clock, r.saved, q.saved);
  }

  /** The same across plugins, whose list orders differ, when every target has a winning entry. */
  lemma EqualClocksEqualBooks(run: seq<Sys>, steps: seq<Step>, k: nat, n: Id, m: Id)
    requires IsCausalRun(run, steps) && k < |run| && n in run[k].world && m in run[k].world
    requires run[k].world[n].clock == run[k].world[m].clock
    requires forall e :: e in run[k].world[n].saved ==> HasWinner(run[k].world[n].saved, Target(e))
    ensures PostAll(EMPTY, Listing(run[k].world[n])) == PostAll(EMPTY, Listing(run[k].world[m]))
  {
    EqualClocksEqualStores(run, steps, k, n, m);
    RunKeepsInv(run, steps, k);
    ListingIsPermutation(run[k], n);
    ListingIsPermutation(run[k], m);
    OrderFreeBooks(run[k].world[n].saved, Listing(run[k].world[n]));
    OrderFreeBooks(run[k].world[n].saved, Listing(run[k].world[m]));
  }

  // At most two editors per target

  /** Each edited target is edited by at most two authors, after its own stamp. */
  ghost predicate FewEditors(list: seq<Entry>) {
    forall x | x in list && x.data.alters != map[] ::
      StampedAfterTarget(list, x.data.alters) && exists a, b :: EditedBy(list, x.data.alters, a, b)
  }

  ghost predicate EditedBy(list: seq<Entry>, t: Clock, a: Id, b: Id) {
    forall x | x in list && Edits(x, t) :: x.data.id == a || x.data.id == b
  }

  lemma SavedInCausalOrder(h: Issued, r: Replica, x: Entry, y: Entry)
    requires WellStamped(h) && DistinctStamps(h) && ReplicaOk(h, r) && x in r.saved && y in r.saved
    ensures x.clock == y.clock ==> x == y
    ensures x != y && x.data.id == y.data.id ==> SmallerThan(x.clock, y.clock) || SmallerThan(y.clock, x.clock)
  {
    assert IsIssued(h, x) && IsIssued(h, y);
    IssuedStampIsKnown(h, x);
    IssuedStampIsKnown(h, y);
    CountedIsDominated(h, x, y.clock);
    CountedIsDominated(h, y, x.clock);
    SmallerIsStrictlyBelow(x.clock, y.clock);
    SmallerIsStrictlyBelow(y.clock, x.clock);
    assert Nth(h, x.data.id, Seq(x)) == x && Nth(h, y.data.id, Seq(y)) == y;
  }

  /** On a run an author's own edits are ordered and stamps identify entries, so two editors leave a winner. */
  lemma FewEditorsLeaveWinners(s: Sys, n: Id)
    requires Inv(s) && n in s.world && FewEditors(s.world[n].saved)
    ensures forall e | e in s.world[n].saved :: HasWinner(s.world[n].saved, Target(e))
  {
    var r, list := s.world[n], s.world[n].saved;
    assert ReplicaOk(s.issued, r);
    forall x, y | x in list && y in list
      ensures x.clock == y.clock ==> x == y
      ensures x != y && x.data.id == y.data.id ==> SmallerThan(x.clock, y.clock) || SmallerThan(y.clock, x.clock)
    {
      SavedInCausalOrder(s.issued, r, x, y);
    }
    forall x | x in list && x.data.alters != map[] ensures HasTwoEditors(list, x.data.alters) {
      var a, b :| EditedBy(list, x.data.alters, a, b);
      assert TwoEditors(list, x.data.alters, a, b);
    }
    forall e | e in list ensures HasWinner(list, Target(e)) {
      TargetHasWinner(list, e);
    }
  }

  /** On every causally delivered run, journals with equal clocks, of whatever plugin, compute the same book when
      each edited target has at most two editors. */
  lemma FewEditorsEqualBooks(run: seq<Sys>, steps: seq<Step>, k: nat, n: Id, m: Id)
    requires IsCausalRun(run, steps) && k < |run| && n in run[k].world && m in run[k].world
    requires run[k].world[n].clock == run[k].world[m].clock && FewEditors(run[k].world[n].saved)
    ensures PostAll(EMPTY, Listing(run[k].world[n])) == PostAll(EMPTY, Listing(run[k].world[m]))
  {
    RunKeepsInv(run, steps, k);
    FewEditorsLeaveWinners(run[k], n);
    EqualClocksEqualBooks(run, steps, k, n, m);
  }

  // Connected networks

  /** The calls of a network in agreement are a run, so what holds on runs holds after them. */
  lemma {:induction false} CallsExtendRun(run: seq<Sys>, steps: seq<Step>, w: Wiring, calls: seq<Call>)
      returns (run': seq<Sys>, steps': seq<Step>)
    requires IsRun(run, steps) && Wired(w) && w.Keys == Last(run).world.Keys
    requires forall c | c in calls :: c.at in w && c.data.id == c.at
    ensures IsRun(run', steps') && run <= run' && steps <= steps'
    ensures Last(run').world == RunCalls(w, Last(run).world, calls)
    decreases calls
  {
    run', steps' := run, steps;
    if calls != [] {
      assert calls[0] in calls;
      run', steps' := AppendExtendsRun(run, steps, w, calls[0].at, calls[0].data);
      run', steps' := CallsExtendRun(run', steps', w, calls[1..]);
    }
  }

  /** On any connected network of journals that starts empty, cycles allowed, after every append, replace
      or erase made anywhere: all journals list exactly one entry per call, journals of one kind list
      them in the same order with the same balance, and all balances agree when every target has a winner, as
      it has with at most two editors. */
  lemma ConnectedNetworkReports(w: Wiring, s: World, calls: seq<Call>, n: Id, m: Id)
    requires Wired(w) && w.Keys == s.Keys && Connected(w) && Empty(s) && 0 !in s
    requires forall c | c in calls :: c.at in s && c.data.id == c.at
    requires n in s && m in s
    ensures var r := RunCalls(w, s, calls);
            && SavedCalls([], r[n].saved, calls)
            && multiset(Listing(r[n])) == multiset(r[n].saved)
            && (r[n].plugin == r[m].plugin ==> Listing(r[n]) == Listing(r[m]) && Balance(r[n]) == Balance(r[m]))
            && ((forall e :: e in r[n].saved ==> HasWinner(r[n].saved, Target(e))) ==> Balance(r[n]) == Balance(r[m]))
            && (FewEditors(r[n].saved) ==> Balance(r[n]) == Balance(r[m]))
  {
    var r := RunCalls(w, s, calls);
    ConnectedNetworkAgrees(w, s, calls);
    var start := Sys(s, map a | a in s :: []);
    assert IsRun([start], []);
    var run, steps := CallsExtendRun([start], [], w, calls);
    RunKeepsInv(run, steps, |run| - 1);
    ListingIsPermutation(Last(run), n);
    ListingIsPermutation(Last(run), m);
    if FewEditors(r[n].saved) {
      FewEditorsLeaveWinners(Last(run), n);
    }
    if forall e :: e in r[n].saved ==> HasWinner(r[n].saved, Target(e)) {
      OrderFreeBooks(r[n].saved, Listing(r[n]));
      OrderFreeBooks(r[n].saved, Listing(r[m]));
    }
  }
}
