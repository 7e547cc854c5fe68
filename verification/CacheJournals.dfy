/** The cache journal's store: a map from stamps to data, iterated in stamp order. */
module CacheJournals {
  import opened Clocks
  import opened Entries
  import opened Listings
  import opened Text
  import opened Runs

  class JournalCache {
    var entries: map<Clock, Data>
    ghost var saved: seq<Entry>

    ghost predicate Valid()
      reads this
    {
      && entries == CacheMap(saved)
      && forall c: Clock :: c in entries <==> HasStamp(saved, c)
    }

    constructor ()
      ensures Valid() && saved == []
    {
      entries, saved := map[], [];
    }

    /** Refuses a stamp it already has, and then changes nothing. */
    method Save(e: Entry) returns (ok: bool)
      requires Valid()
      modifies this
      ensures Valid() && ok == !HasStamp(old(saved), e.clock)
      ensures saved == if ok then old(saved) + [e] else old(saved)
    {
      if e.clock in entries {
        return false;
      }
      entries := entries[e.clock := e.data];
      saved := saved + [e];
      assert saved[..|saved| - 1] == old(saved) && saved[|saved| - 1] == e;
      assert forall c: Clock :: HasStamp(saved, c) <==> c == e.clock || HasStamp(old(saved), c);
      ok := true;
    }

    method EntryAt(clock: Clock) returns (found: Data)
      requires Valid()
      ensures found == if clock in CacheMap(saved) then CacheMap(saved)[clock] else Data(0, 0, map[])
    {
      found := if clock !in entries then NOTHING.data else entries[clock];
    }

    /** The map in its own order, which is the lexicographic order of the stamps. */
    method AllEntries() returns (list: seq<Entry>)
      requires Valid()
      ensures list == MapListing(CacheMap(saved))
    {
      list := [];
      var rest := entries;
      ghost var whole := MapListing(entries);
      while rest != map[]
        invariant list + MapListing(rest) == whole
        decreases |rest|
      {
        var clock := First(rest.Keys);
        list := list + [Entry(clock, rest[clock])];
        rest := rest - {clock};
      }
      assert list + [] == list;
    }
  }

  /** On every run the cache finds each saved entry by its stamp, and nothing under any other clock. */
  lemma CacheFindsSaved(run: seq<Sys>, steps: seq<Step>, k: nat, n: Id)
    requires IsRun(run, steps) && k < |run| && n in run[k].world
    ensures var saved := run[k].world[n].saved;
            && (forall e | e in saved :: e.clock in CacheMap(saved) && CacheMap(saved)[e.clock] == e.data)
            && (forall c: Clock | !HasStamp(saved, c) :: c !in CacheMap(saved))
  {
    RunKeepsInv(run, steps, k);
    var r := run[k].world[n];
    assert ReplicaOk(run[k].issued, r);
    SavedStampsDiffer(run[k].issued, r);
    CacheMapHolds(r.saved);
    forall c: Clock | c in CacheMap(r.saved) ensures HasStamp(r.saved, c) {
      var e := Entry(c, CacheMap(r.saved)[c]);
      var i :| 0 <= i < |r.saved| && r.saved[i] == e;
    }
  }
}
