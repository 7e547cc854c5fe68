/** The directory of a file journal: one log per author, found by name, read back and indexed by line. A name is the
    author's id in sixteen hexadecimal digits, and a line is a printed entry. */
module Files {
  import opened Clocks
  import opened Entries
  import opened Numbers
  import opened Listings
  import opened Text
  import opened Logs

  /** File names and contents. */
  type Disk = map<string, string>

  function Zeros(k: nat): string { if k == 0 then "" else Zeros(k - 1) + "0" }

  /** The id in hexadecimal, padded with zeros to sixteen digits. */
  function Filename(id: Id): string {
    var p := Print(id, 16);
    if |p| < 16 then Zeros(16 - |p|) + p else p
  }

  function Open(disk: Disk, id: Id): In {
    if Filename(id) in disk then In(disk[Filename(id)], false) else In("", true)
  }

  function Content(disk: Disk, id: Id): string { if Filename(id) in disk then disk[Filename(id)] else "" }

  function AddLine(disk: Disk, e: Entry): Disk {
    disk[Filename(e.data.id) := Content(disk, e.data.id) + (PrintEntry(e) + "\n")]
  }

  /** Each author's file holds the printed entries saved for that author; there is no file for an author without any. */
  ghost predicate Holds(disk: Disk, saved: seq<Entry>) { forall a: Id :: FileHolds(disk, saved, a) }

  ghost predicate FileHolds(disk: Disk, saved: seq<Entry>, a: Id) {
    && (Filename(a) in disk <==> ByAuthor(saved, a) != [])
    && Content(disk, a) == LogText(ByAuthor(saved, a))
  }

  // Names are distinct

  lemma {:induction false} ZerosAreZero(k: nat)
    ensures NumberOf(Zeros(k), 16) == 0
  {
    if k > 0 {
      ZerosAreZero(k - 1);
      NumberOfAppend(Zeros(k - 1), '0', 16);
    }
  }

  lemma {:induction false} LeadingZeros(k: nat, s: string)
    ensures NumberOf(Zeros(k) + s, 16) == NumberOf(s, 16)
    decreases |s|
  {
    if s == [] {
      assert Zeros(k) + s == Zeros(k);
      ZerosAreZero(k);
    } else {
      var front, last := s[..|s| - 1], s[|s| - 1];
      LeadingZeros(k, front);
      assert Zeros(k) + s == Zeros(k) + front + [last] && s == front + [last];
      NumberOfAppend(Zeros(k) + front, last, 16);
      NumberOfAppend(front, last, 16);
    }
  }

  /** The name of a file gives its author back, so no two authors share a file. */
  lemma FilenameIsInjective(a: Id, b: Id)
    ensures Filename(a) == Filename(b) <==> a == b
  {
    PrintRoundTrip(a, 16);
    PrintRoundTrip(b, 16);
    LeadingZeros(if |Print(a, 16)| < 16 then 16 - |Print(a, 16)| else 0, Print(a, 16));
    LeadingZeros(if |Print(b, 16)| < 16 then 16 - |Print(b, 16)| else 0, Print(b, 16));
    assert NumberOf(Filename(a), 16) == a && NumberOf(Filename(b), 16) == b;
  }

  /** Ids of 64 bits have names of sixteen lower-case hexadecimal digits. */
  lemma FilenameHasSixteenDigits(id: Id)
    requires id < 0x1_0000_0000_0000_0000
    ensures |Filename(id)| == 16 && IsLowerHex(Filename(id))
    ensures NumberOf(Filename(id), 16) == id
  {
    var p := Print(id, 16);
    assert 0 < |p| <= 16 && IsLowerHex(p) by {
      SixteenToTheSixteenth();
      PrintIsShort(id, 16, 16);
      PrintIsCanonical(id, 16);
    }
    Padded(p);
    PrintRoundTrip(id, 16);
    assert Filename(id) == Zeros(16 - |p|) + p;
  }

  lemma Padded(p: string)
    requires 0 < |p| <= 16 && IsLowerHex(p)
    ensures |Zeros(16 - |p|) + p| == 16 && IsLowerHex(Zeros(16 - |p|) + p)
    ensures NumberOf(Zeros(16 - |p|) + p, 16) == NumberOf(p, 16)
  {
    ZerosAreZeros(16 - |p|);
    LeadingZeros(16 - |p|, p);
  }

  lemma SixteenToTheSixteenth()
    ensures Power(16, 16) == 0x1_0000_0000_0000_0000
  {
    assert Power(16, 4) == 0x1_0000;
    assert Power(16, 8) == 0x1_0000_0000;
    assert Power(16, 12) == 0x1_0000_0000_0000;
  }

  lemma {:induction false} ZerosAreZeros(k: nat)
    ensures |Zeros(k)| == k && forall c | c in Zeros(k) :: c == '0'
  {
    if k > 0 {
      ZerosAreZeros(k - 1);
    }
  }

  // Saving

  lemma OwnLineHolds(disk: Disk, saved: seq<Entry>, e: Entry)
    requires FileHolds(disk, saved, e.data.id)
    ensures FileHolds(AddLine(disk, e), saved + [e], e.data.id)
  {
    ByAuthorAppend(saved, e, e.data.id);
    LogTextAppend(ByAuthor(saved, e.data.id), e);
    var name := Filename(e.data.id);
    assert AddLine(disk, e)[name] == Content(disk, e.data.id) + (PrintEntry(e) + "\n");
  }

  lemma OtherFileHolds(disk: Disk, saved: seq<Entry>, e: Entry, a: Id)
    requires FileHolds(disk, saved, a) && a != e.data.id
    ensures FileHolds(AddLine(disk, e), saved + [e], a)
  {
    FilenameIsInjective(a, e.data.id);
    ByAuthorAppend(saved, e, a);
    var line := PrintEntry(e);
    assert ByAuthor(saved + [e], a) == ByAuthor(saved, a);
  }

  /** Appending a line to the author's file keeps disk and store in step. */
  lemma AddLineHolds(disk: Disk, saved: seq<Entry>, e: Entry)
    requires Holds(disk, saved)
    ensures Holds(AddLine(disk, e), saved + [e])
  {
    forall a: Id ensures FileHolds(AddLine(disk, e), saved + [e], a) {
      assert FileHolds(disk, saved, a);
      if a == e.data.id {
        OwnLineHolds(disk, saved, e);
      } else {
        OtherFileHolds(disk, saved, e, a);
      }
    }
  }

  // Listing

  function ReadFiles(ids: seq<Id>, clock: Clock, disk: Disk): seq<Entry> {
    if ids == [] then [] else ReadLines(Open(disk, ids[0]), At(clock, ids[0])) + ReadFiles(ids[1..], clock, disk)
  }

  lemma ReadFile(disk: Disk, saved: seq<Entry>, a: Id, count: nat)
    requires FileHolds(disk, saved, a)
    ensures ReadLines(Open(disk, a), count) == Prefix(ByAuthor(saved, a), count)
  {
    if Filename(a) in disk {
      LogRoundTrip(ByAuthor(saved, a), count);
    } else {
      NothingLeft(Open(disk, a), count);
    }
  }

  /** What is read back from disk is the listing of what was saved. */
  lemma {:induction false} FilesListSaved(ids: seq<Id>, clock: Clock, disk: Disk, saved: seq<Entry>)
    requires Holds(disk, saved)
    ensures ReadFiles(ids, clock, disk) == FileLogs(ids, clock, saved)
  {
    if ids != [] {
      assert FileHolds(disk, saved, ids[0]);
      ReadFile(disk, saved, ids[0], At(clock, ids[0]));
      FilesListSaved(ids[1..], clock, disk, saved);
    }
  }

  // Seeking

  lemma PrintHasNoLineFeed(n: nat, base: nat)
    requires 2 <= base <= 16
    ensures '\n' !in Print(n, base)
  {
    PrintIsDigits(n, base);
  }

  lemma PairHasNoLineFeed(id: Id, time: Time)
    ensures '\n' !in PrintPair(id, time)
  {
    PrintHasNoLineFeed(id, 16);
    PrintHasNoLineFeed(time, 10);
  }

  lemma {:induction false} PairsHaveNoLineFeed(ids: seq<Id>, c: Clock)
    ensures '\n' !in PrintMorePairs(ids, c)
    decreases ids
  {
    if ids != [] {
      PairHasNoLineFeed(ids[0], At(c, ids[0]));
      PairsHaveNoLineFeed(ids[1..], c);
    }
  }

  lemma ClockHasNoLineFeed(c: Clock)
    ensures '\n' !in PrintClock(c)
  {
    var ids := SortedIds(c.Keys);
    if ids != [] {
      PairHasNoLineFeed(ids[0], At(c, ids[0]));
      PairsHaveNoLineFeed(ids[1..], c);
    }
  }

  lemma DataHasNoLineFeed(d: Data)
    ensures '\n' !in PrintData(d)
  {
    PrintHasNoLineFeed(d.id, 16);
    PrintHasNoLineFeed(if d.value < 0 then -d.value else d.value, 10);
    ClockHasNoLineFeed(d.alters);
  }

  lemma EntryHasNoLineFeed(e: Entry)
    ensures '\n' !in PrintEntry(e)
  {
    var clock, data := PrintClock(e.clock), PrintData(e.data);
    assert '\n' !in clock && '\n' !in data by {
      ClockHasNoLineFeed(e.clock);
      DataHasNoLineFeed(e.data);
    }
  }

  lemma {:induction false} SkipsLine(line: string, rest: string)
    requires '\n' !in line
    ensures SkipLine(In(line + "\n" + rest, false)) == In(rest, false)
    decreases |line|
  {
    var s := line + "\n" + rest;
    if line == [] {
      assert s[0] == '\n' && s[1..] == rest;
    } else {
      assert s[0] == line[0] && s[1..] == line[1..] + "\n" + rest;
      SkipsLine(line[1..], rest);
    }
  }

  /** Whether seeking the line numbered `k` of a log counts down to one: the two lines past the end are found too,
      but in a missing file nothing is skipped. */
  predicate Reach(log: seq<Entry>, k: nat) { if log == [] then k == 1 else 1 <= k <= |log| + 2 }

  lemma SeekFirst(log: seq<Entry>)
    ensures SeekLoop(In(LogText(log), false), 1) == (In(LogText(log[0..]), false), 1)
  {
    assert log[0..] == log;
  }

  lemma SeekPastEnd(k: nat)
    requires k > 1
    ensures SeekLoop(In("", false), k) == (In("", true), k - 1)
  {
    assert SeekLoop(In("", true), k - 1) == (In("", true), k - 1);
  }

  lemma SeekSkips(log: seq<Entry>, k: nat)
    requires log != [] && k > 1
    ensures SeekLoop(In(LogText(log), false), k) == SeekLoop(In(LogText(log[1..]), false), k - 1)
  {
    EntryHasNoLineFeed(log[0]);
    SkipsLine(PrintEntry(log[0]), LogText(log[1..]));
  }

  /** Where the countdown for line `k` ends, and at what: on the line, or spent past the end. */
  function Landing(log: seq<Entry>, k: nat): (In, nat)
    requires k > 0
  {
    if k <= |log| + 1 then (In(LogText(log[k - 1..]), false), 1) else (In("", true), k - |log| - 1)
  }

  lemma LandingShifts(log: seq<Entry>, k: nat)
    requires log != [] && k > 1
    ensures Landing(log, k) == Landing(log[1..], k - 1)
  {
    assert k <= |log| + 1 ==> log[1..][k - 2..] == log[k - 1..];
  }

  /** Seeking line k of a log of n lines lands on it, still counts down to one at n + 2, and fails beyond. */
  lemma {:induction false} SeekInLog(log: seq<Entry>, k: nat)
    requires k > 0
    ensures SeekLoop(In(LogText(log), false), k) == Landing(log, k)
    decreases k
  {
    if k == 1 {
      SeekFirst(log);
    } else if log == [] {
      SeekPastEnd(k);
    } else {
      SeekSkips(log, k);
      SeekInLog(log[1..], k - 1);
      LandingShifts(log, k);
    }
  }

  /** What `entry` reads at line `k`, and whether it goes on at all. */
  lemma LineRead(disk: Disk, saved: seq<Entry>, a: Id, k: nat)
    requires FileHolds(disk, saved, a)
    ensures var log := ByAuthor(saved, a);
            var (s, found) := Seek(Open(disk, a), k);
            && (found <==> Reach(log, k))
            && (found ==> ReadEntry(s, NOTHING).value == if k <= |log| then log[k - 1] else NOTHING)
  {
    var log := ByAuthor(saved, a);
    if log != [] && k > 0 {
      SeekInLog(log, k);
      if k <= |log| {
        FirstOfLog(log[k - 1..]);
      }
    }
  }

  lemma FirstOfLog(log: seq<Entry>)
    requires log != []
    ensures ReadEntry(In(LogText(log), false), NOTHING).value == log[0]
  {
    LineRoundTrip(log[0], LogText(log[1..]));
  }

  // Lookup by stamp

  /** JournalFile::entry on the bytes of the files. */
  function Find(ids: seq<Id>, clock: Clock, disk: Disk): Data {
    if ids == [] then NOTHING.data
    else
      var (s, found) := Seek(Open(disk, ids[0]), At(clock, ids[0]));
      if !found then NOTHING.data
      else
        var e := ReadEntry(s, NOTHING).value;
        if e.clock == clock then e.data else Find(ids[1..], clock, disk)
  }

  /** The same on the logs themselves. */
  function Lookup(ids: seq<Id>, clock: Clock, saved: seq<Entry>): Data {
    if ids == [] then NOTHING.data
    else
      var log, k := ByAuthor(saved, ids[0]), At(clock, ids[0]);
      if !Reach(log, k) then NOTHING.data
      else if k <= |log| && log[k - 1].clock == clock then log[k - 1].data
      else Lookup(ids[1..], clock, saved)
  }

  lemma FindStep(ids: seq<Id>, clock: Clock, disk: Disk, saved: seq<Entry>)
    requires ids != [] && FileHolds(disk, saved, ids[0]) && clock != map[]
    requires Find(ids[1..], clock, disk) == Lookup(ids[1..], clock, saved)
    ensures Find(ids, clock, disk) == Lookup(ids, clock, saved)
  {
    LineRead(disk, saved, ids[0], At(clock, ids[0]));
  }

  lemma {:induction false} FindIsLookup(ids: seq<Id>, clock: Clock, disk: Disk, saved: seq<Entry>)
    requires Holds(disk, saved) && clock != map[]
    ensures Find(ids, clock, disk) == Lookup(ids, clock, saved)
  {
    if ids != [] {
      FindIsLookup(ids[1..], clock, disk, saved);
      assert FileHolds(disk, saved, ids[0]);
      FindStep(ids, clock, disk, saved);
    }
  }

  lemma {:induction false} LookupMisses(ids: seq<Id>, c: Clock, saved: seq<Entry>)
    requires forall x | x in saved && x.data.id in ids :: x.clock != c
    ensures Lookup(ids, c, saved) == Data(0, 0, map[])
  {
    if ids != [] {
      assert ids[0] in ids;
      ByAuthorMembers(saved, ids[0]);
      LookupMisses(ids[1..], c, saved);
    }
  }
}
