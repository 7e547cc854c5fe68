/** The text form of entries: how they are printed, and how a stream of characters is read back.
    A reader is a function from the stream's state to a verdict, a value and the new state. */
module Text {
  import opened Clocks
  import opened Entries
  import opened Numbers
  import opened Listings

  // Printing

  function PrintPair(id: Id, time: Time): string { "{" + Print(id, 16) + ", " + Print(time, 10) + "}" }

  function PrintMorePairs(ids: seq<Id>, c: Clock): string {
    if ids == [] then "" else ", " + PrintPair(ids[0], At(c, ids[0])) + PrintMorePairs(ids[1..], c)
  }

  function PrintClock(c: Clock): string {
    var ids := SortedIds(c.Keys);
    if ids == [] then "{}" else "{" + PrintPair(ids[0], At(c, ids[0])) + PrintMorePairs(ids[1..], c) + "}"
  }

  function PrintData(d: Data): string {
    "{" + Print(d.id, 16) + ", " + PrintInt(d.value) + ", " + PrintClock(d.alters) + "}"
  }

  function PrintEntry(e: Entry): string { "{" + PrintClock(e.clock) + ", " + PrintData(e.data) + "}" }

  // Reading

  /** What is left of a stream, and whether an extraction has failed; a failed stream yields nothing more. */
  datatype In = In(rest: string, fail: bool)

  datatype Parsed<T> = Parsed(ok: bool, value: T, next: In)

  function SkipSpaces(s: string): string { if s != [] && s[0] == ' ' then SkipSpaces(s[1..]) else s }

  function SkipBlanks(s: string): string { if s != [] && IsSpace(s[0]) then SkipBlanks(s[1..]) else s }

  function AfterSpaces(s: In): In { if s.fail then s else s.(rest := SkipSpaces(s.rest)) }

  predicate Sees(s: In, c: char) { !s.fail && s.rest != [] && s.rest[0] == c }

  function ReadChar(s: In, c: char): Parsed<()> {
    var t := AfterSpaces(s);
    if Sees(t, c) then Parsed(true, (), t.(rest := t.rest[1..])) else Parsed(false, (), t)
  }

  /** Extraction of a number: leading blanks are skipped, then as many digits as there are. */
  function ReadNat(s: In, base: nat): Parsed<nat> {
    if s.fail then Parsed(false, 0, s)
    else
      var t := SkipBlanks(s.rest);
      var k := Run(t, base);
      RunIsDigits(t, base);
      if k == 0 then Parsed(false, 0, In(t, true)) else Parsed(true, NumberOf(t[..k], base), In(t[k..], false))
  }

  function ReadInt(s: In): Parsed<int> {
    if s.fail then Parsed(false, 0, s)
    else
      var t := SkipBlanks(s.rest);
      if t != [] && t[0] == '-' then
        var k := Run(t[1..], 10);
        RunIsDigits(t[1..], 10);
        if k == 0 then Parsed(false, 0, In(t[1..], true))
        else
          var n: int := NumberOf(t[1..][..k], 10);
          Parsed(true, -n, In(t[1..][k..], false))
      else
        var p := ReadNat(In(t, false), 10);
        Parsed(p.ok, p.value, p.next)
  }

  function ReadPair(s: In): Parsed<(Id, Time)> {
    var open := ReadChar(s, '{');
    if !open.ok then Parsed(false, (0, 0), open.next) else
    var id := ReadNat(open.next, 16);
    if !id.ok then Parsed(false, (0, 0), id.next) else
    var comma := ReadChar(id.next, ',');
    if !comma.ok then Parsed(false, (0, 0), comma.next) else
    var time := ReadNat(comma.next, 10);
    if !time.ok then Parsed(false, (0, 0), time.next) else
    var close := ReadChar(time.next, '}');
    Parsed(close.ok, (id.value, time.value), close.next)
  }

  lemma {:induction false} SkippingShortens(s: string)
    ensures |SkipSpaces(s)| <= |s| && |SkipBlanks(s)| <= |s|
  {
    if s != [] {
      SkippingShortens(s[1..]);
    }
  }

  lemma ReadCharShortens(s: In, c: char)
    ensures |ReadChar(s, c).next.rest| <= |s.rest|
    ensures ReadChar(s, c).ok ==> |ReadChar(s, c).next.rest| < |s.rest|
  {
    SkippingShortens(s.rest);
  }

  lemma ReadNatShortens(s: In, base: nat)
    ensures |ReadNat(s, base).next.rest| <= |s.rest|
  {
    SkippingShortens(s.rest);
    RunIsDigits(SkipBlanks(s.rest), base);
  }

  lemma ReadPairShortens(s: In)
    ensures ReadPair(s).ok ==> |ReadPair(s).next.rest| < |s.rest|
  {
    var open := ReadChar(s, '{');
    ReadCharShortens(s, '{');
    var id := ReadNat(open.next, 16);
    ReadNatShortens(open.next, 16);
    var comma := ReadChar(id.next, ',');
    ReadCharShortens(id.next, ',');
    var time := ReadNat(comma.next, 10);
    ReadNatShortens(comma.next, 10);
    ReadCharShortens(time.next, '}');
  }

  /** The do-while loop of Clock::Read: pairs as long as commas follow. */
  function ReadPairs(s: In, acc: Clock): Parsed<Clock>
    decreases |s.rest|
  {
    var p := ReadPair(s);
    if !p.ok then Parsed(false, acc, p.next)
    else
      var more := ReadChar(p.next, ',');
      ReadPairShortens(s);
      ReadCharShortens(p.next, ',');
      if more.ok then ReadPairs(more.next, acc[p.value.0 := p.value.1])
      else Parsed(true, acc[p.value.0 := p.value.1], more.next)
  }

  function ReadClock(s: In, acc: Clock): Parsed<Clock> {
    var open := ReadChar(s, '{');
    if !open.ok then Parsed(false, acc, open.next) else
    var t := AfterSpaces(open.next);
    var pairs := if Sees(t, '{') then ReadPairs(t, acc) else Parsed(true, acc, t);
    if !pairs.ok then Parsed(false, pairs.value, pairs.next) else
    var close := ReadChar(pairs.next, '}');
    Parsed(close.ok, pairs.value, close.next)
  }

  function ReadData(s: In, acc: Data): Parsed<Data> {
    var open := ReadChar(s, '{');
    if !open.ok then Parsed(false, acc, open.next) else
    var id := ReadNat(open.next, 16);
    var acc1 := acc.(id := id.value);
    var comma := ReadChar(id.next, ',');
    if !comma.ok then Parsed(false, acc1, comma.next) else
    var value := ReadInt(comma.next);
    var acc2 := acc1.(value := value.value);
    if !value.ok then Parsed(false, acc2, value.next) else
    var comma2 := ReadChar(value.next, ',');
    if !comma2.ok then Parsed(false, acc2, comma2.next) else
    var alters := ReadClock(comma2.next, acc2.alters);
    var acc3 := acc2.(alters := alters.value);
    if !alters.ok then Parsed(false, acc3, alters.next) else
    var close := ReadChar(alters.next, '}');
    Parsed(close.ok, acc3, close.next)
  }

  const NOTHING: Entry := Entry(map[], Data(0, 0, map[]))

  function ReadEntry(s: In, acc: Entry): Parsed<Entry> {
    var open := ReadChar(s, '{');
    if !open.ok then Parsed(false, acc, open.next) else
    var clock := ReadClock(open.next, acc.clock);
    var acc1 := acc.(clock := clock.value);
    if !clock.ok then Parsed(false, acc1, clock.next) else
    var comma := ReadChar(clock.next, ',');
    if !comma.ok then Parsed(false, acc1, comma.next) else
    var data := ReadData(comma.next, acc1.data);
    var acc2 := acc1.(data := data.value);
    if !data.ok then Parsed(false, acc2, data.next) else
    var close := ReadChar(data.next, '}');
    Parsed(close.ok, acc2, close.next)
  }

  // Seeking a line

  /** Past the next line feed; the stream is no longer good when there is none. */
  function SkipLine(s: In): In
    decreases |s.rest|
  {
    if s.rest == [] then In([], true)
    else if s.rest[0] == '\n' then s.(rest := s.rest[1..])
    else SkipLine(s.(rest := s.rest[1..]))
  }

  function SeekLoop(s: In, line: nat): (In, nat)
    decreases line
  {
    if line > 1 && !s.fail then SeekLoop(SkipLine(s), line - 1) else (s, line)
  }

  /** Whether counting lines down to one succeeds, and where the stream then is. */
  function Seek(s: In, line: nat): (In, bool) { (SeekLoop(s, line).0, SeekLoop(s, line).1 == 1) }

  // Tokens: what must appear, whatever the spacing

  function Spaces(k: nat): string { if k == 0 then "" else " " + Spaces(k - 1) }

  /** The tokens in order, `pads[i]` spaces before the `i`-th, then `rest`. */
  function Weave(tokens: seq<string>, pads: seq<nat>, rest: string): string
    requires |pads| >= |tokens|
    decreases tokens
  {
    if tokens == [] then rest else Spaces(pads[0]) + tokens[0] + Weave(tokens[1..], pads[1..], rest)
  }

  /** The tokens of a non-empty list of pairs, then `tail`. */
  function PairTokens(ids: seq<Id>, c: Clock, tail: seq<string>): seq<string>
    requires ids != []
    decreases ids
  {
    ["{", Print(ids[0], 16), ",", Print(At(c, ids[0]), 10), "}"] +
    (if |ids| == 1 then tail else [","] + PairTokens(ids[1..], c, tail))
  }

  function ClockTokens(c: Clock, tail: seq<string>): seq<string> {
    var ids := SortedIds(c.Keys);
    ["{"] + (if ids == [] then ["}"] + tail else PairTokens(ids, c, ["}"] + tail))
  }

  function DataTokens(d: Data, tail: seq<string>): seq<string> {
    ["{", Print(d.id, 16), ",", PrintInt(d.value), ","] + ClockTokens(d.alters, ["}"] + tail)
  }

  function EntryTokens(e: Entry, tail: seq<string>): seq<string> {
    ["{"] + ClockTokens(e.clock, [","] + DataTokens(e.data, ["}"] + tail))
  }
}
