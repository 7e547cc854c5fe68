/** The file journal's store: a directory of append-only logs that the clock indexes. */
module FileJournals {
  import opened Clocks
  import opened Entries
  import opened Listings
  import opened Text
  import opened Logs
  import opened Files
  import opened Streams

  /** What is left of an author's file after `n` lines; nothing of one that is missing. */
  function AfterLines(log: seq<Entry>, n: nat, missing: bool): In {
    In(LogText(if n <= |log| then log[n..] else []), missing)
  }

  /** One more line: read and kept while there is one. */
  lemma LineIsRead(log: seq<Entry>, n: nat, missing: bool, s: In)
    requires (missing ==> log == []) && s == AfterLines(log, n, missing)
    ensures var p := Text.ReadEntry(s, NOTHING);
            && (p.ok <==> n < |log|) && (p.ok ==> p.value == log[n])
            && Text.ReadChar(p.next, '\n').next == AfterLines(log, n + 1, missing)
  {
    if n < |log| {
      NextLine(log[n..], log[n], log[n + 1..], s);
    } else {
      PastTheEnd(s);
    }
  }

  lemma NextLine(log: seq<Entry>, e: Entry, rest: seq<Entry>, s: In)
    requires log == [e] + rest && s == In(LogText(log), false)
    ensures var p := Text.ReadEntry(s, NOTHING);
            p.ok && p.value == e && Text.ReadChar(p.next, '\n').next == In(LogText(rest), false)
  {
    assert log[1..] == rest;
    LineRoundTrip(e, LogText(rest));
    LineEnds(LogText(rest));
  }

  lemma PastTheEnd(s: In)
    requires s.rest == ""
    ensures var p := Text.ReadEntry(s, NOTHING); !p.ok && Text.ReadChar(p.next, '\n').next == s
  {}

  lemma PrefixGrows(log: seq<Entry>, n: nat)
    ensures Prefix(log, n + 1) == if n < |log| then Prefix(log, n) + [log[n]] else Prefix(log, n)
  {}

  class JournalFile {
    var files: Disk
    ghost var saved: seq<Entry>

    ghost predicate Valid()
      reads this
    {
      Holds(files, saved)
    }

    /** The directory starts empty. */
    constructor ()
      ensures Valid() && saved == []
    {
      files, saved := map[], [];
    }

    method Save(e: Entry) returns (ok: bool)
      requires Valid()
      modifies this
      ensures Valid() && ok && saved == old(saved) + [e]
      ensures files == AddLine(old(files), e)
    {
      AddLineHolds(files, saved, e);
      var name := Filename(e.data.id);
      var content := if name in files then files[name] else "";
      files := files[name := content + (PrintEntry(e) + "\n")];
      saved := saved + [e];
      ok := true;
    }

    /** Searches by stamp: the files of its authors in ascending order, each at the line its count names. */
    method EntryAt(clock: Clock) returns (found: Data)
      requires Valid()
      ensures found == Lookup(SortedIds(clock.Keys), clock, saved)
      ensures (forall e | e in saved :: e.clock != clock) ==> found == Data(0, 0, map[])
    {
      var ids := SortedIds(clock.Keys);
      for i := 0 to |ids|
        invariant Find(ids, clock, files) == Find(ids[i..], clock, files)
      {
        assert ids[i..][0] == ids[i] && ids[i..][1..] == ids[i + 1..];
        var file := new Stream(Open(files, ids[i]));
        var ok := file.SeekToLine(At(clock, ids[i]));
        if !ok {
          break;
        }
        var _, e := Streams.ReadEntry(file, NOTHING);
        if e.clock == clock {
          FindOrLookup(ids, clock);
          Misses(ids, clock);
          return e.data;
        }
      }
      FindOrLookup(ids, clock);
      found := NOTHING.data;
    }

    lemma Misses(ids: seq<Id>, clock: Clock)
      ensures (forall e | e in saved :: e.clock != clock) ==> Lookup(ids, clock, saved) == Data(0, 0, map[])
    {
      if forall e | e in saved :: e.clock != clock {
        LookupMisses(ids, clock, saved);
      }
    }

    lemma FindOrLookup(ids: seq<Id>, clock: Clock)
      requires Valid() && (clock == map[] ==> ids == [])
      ensures Find(ids, clock, files) == Lookup(ids, clock, saved)
    {
      if clock != map[] {
        FindIsLookup(ids, clock, files, saved);
      }
    }

    /** Reads every counted line of every file, keeping what parses. */
    method AllEntries(clock: Clock) returns (list: seq<Entry>)
      requires Valid()
      ensures list == FileListing(clock, saved)
    {
      var ids := SortedIds(clock.Keys);
      list := [];
      assert [] + FileLogs(ids, clock, saved) == FileLogs(ids, clock, saved) && ids[0..] == ids;
      for i := 0 to |ids|
        invariant list + FileLogs(ids[i..], clock, saved) == FileLogs(ids, clock, saved)
      {
        assert ids[i..][0] == ids[i] && ids[i..][1..] == ids[i + 1..];
        var lines := ReadFile(ids[i], At(clock, ids[i]));
        assert list + lines + FileLogs(ids[i + 1..], clock, saved) == list + FileLogs(ids[i..], clock, saved);
        list := list + lines;
      }
    }

    method ReadFile(id: Id, count: nat) returns (list: seq<Entry>)
      requires Valid()
      ensures list == Prefix(ByAuthor(saved, id), count)
    {
      assert FileHolds(files, saved, id);
      var file := new Stream(Open(files, id));
      ghost var log, missing := ByAuthor(saved, id), Filename(id) !in files;
      assert log[0..] == log;
      list := [];
      for i := 0 to count
        invariant list == Prefix(log, i) && file.State() == AfterLines(log, i, missing)
      {
        list := ReadLine(file, list, log, i, missing);
      }
    }

    /** One turn: a line is kept if it parses, and its end is consumed. */
    static method ReadLine(file: Stream, before: seq<Entry>, ghost log: seq<Entry>, ghost n: nat, ghost missing: bool)
        returns (list: seq<Entry>)
      requires (missing ==> log == []) && before == Prefix(log, n) && file.State() == AfterLines(log, n, missing)
      modifies file
      ensures list == Prefix(log, n + 1) && file.State() == AfterLines(log, n + 1, missing)
    {
      LineIsRead(log, n, missing, file.State());
      PrefixGrows(log, n);
      var ok, e := Streams.ReadEntry(file, NOTHING);
      list := if ok then before + [e] else before;
      var _ := file.ReadChar('\n');
    }
  }
}
