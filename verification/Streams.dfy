/** The stream readers as the source runs them: each consumes characters of a shared stream in place.
    Every method is tied to the reader function of module Text, whose round trips are proved. */
module Streams {
  import opened Clocks
  import opened Entries
  import opened Text

  class Stream {
    const text: string
    var rest: string
    var fail: bool
    /** The end of the file was run into while skipping a line; rewinding forgets it, unlike a failure. */
    var ended: bool

    constructor (s: In)
      ensures State() == s && text == s.rest && fail == s.fail
    {
      text, rest, fail, ended := s.rest, s.rest, s.fail, false;
    }

    function State(): In
      reads this
    {
      In(rest, fail || ended)
    }

    method ReadSpaces() returns (any: bool)
      modifies this
      ensures State() == AfterSpaces(old(State()))
      ensures any <==> State() != old(State())
    {
      any := false;
      while !fail && !ended && rest != [] && rest[0] == ' '
        invariant AfterSpaces(State()) == AfterSpaces(old(State()))
        invariant fail == old(fail) && ended == old(ended) && |rest| <= |old(rest)|
        invariant if any then |rest| < |old(rest)| else rest == old(rest)
        decreases |rest|
      {
        rest := rest[1..];
        any := true;
      }
    }

    method ReadChar(expected: char) returns (ok: bool)
      modifies this
      ensures Parsed(ok, (), State()) == Text.ReadChar(old(State()), expected)
    {
      var _ := ReadSpaces();
      ok := !fail && !ended && rest != [] && rest[0] == expected;
      if ok {
        rest := rest[1..];
      }
    }

    /** The extraction operator of the standard library, in the given base. */
    method ExtractNat(base: nat) returns (v: nat)
      modifies this
      ensures Parsed(!fail, v, State()) == ReadNat(old(State()), base)
    {
      var p := ReadNat(State(), base);
      v := p.value;
      rest, fail := p.next.rest, p.next.fail;
    }

    method ExtractInt() returns (v: int)
      modifies this
      ensures Parsed(!fail, v, State()) == ReadInt(old(State()))
    {
      var p := ReadInt(State());
      v := p.value;
      rest, fail := p.next.rest, p.next.fail;
    }

    method ReadPair() returns (ok: bool, id: Id, time: Time)
      modifies this
      ensures var p := Text.ReadPair(old(State()));
              ok == p.ok && State() == p.next && (ok ==> (id, time) == p.value)
    {
      id, time := 0, 0;
      ok := ReadChar('{');
      if !ok { return; }
      id := ExtractNat(16);
      if fail { return false, id, time; }
      ok := ReadChar(',');
      if !ok { return; }
      time := ExtractNat(10);
      if fail { return false, id, time; }
      ok := ReadChar('}');
    }

    /** Rewinds, skips line by line, and reports whether it counted down to one. A failed stream cannot be rewound. */
    method SeekToLine(line: nat) returns (found: bool)
      modifies this
      ensures (State(), found) == Seek(In(if old(fail) then old(rest) else text, old(fail)), line)
    {
      ended := false;
      if !fail {
        rest := text;
      }
      ghost var start := State();
      var left := line;
      while left > 1 && !fail && !ended
        invariant SeekLoop(State(), left) == SeekLoop(start, line)
      {
        IgnoreLine();
        left := left - 1;
      }
      found := left == 1;
    }

    method IgnoreLine()
      modifies this
      requires !fail && !ended
      ensures State() == SkipLine(old(State()))
    {
      while rest != [] && rest[0] != '\n'
        invariant !fail && !ended && SkipLine(State()) == SkipLine(old(State()))
        decreases |rest|
      {
        rest := rest[1..];
      }
      if rest == [] {
        ended := true;
      } else {
        rest := rest[1..];
      }
    }
  }

  method ReadClock(s: Stream, before: Clock) returns (ok: bool, clock: Clock)
    modifies s
    ensures Parsed(ok, clock, s.State()) == Text.ReadClock(old(s.State()), before)
  {
    clock := before;
    ok := s.ReadChar('{');
    if !ok { return; }
    var _ := s.ReadSpaces();
    if !s.fail && !s.ended && s.rest != [] && s.rest[0] == '{' {
      ok, clock := ReadPairs(s, clock);
      if !ok { return; }
    }
    ok := s.ReadChar('}');
  }

  /** The do-while loop: a pair, then another as long as a comma follows. */
  method ReadPairs(s: Stream, before: Clock) returns (ok: bool, clock: Clock)
    modifies s
    ensures Parsed(ok, clock, s.State()) == Text.ReadPairs(old(s.State()), before)
  {
    clock := before;
    var more := true;
    while more
      invariant if more then Text.ReadPairs(s.State(), clock) == Text.ReadPairs(old(s.State()), before)
                else Parsed(true, clock, s.State()) == Text.ReadPairs(old(s.State()), before)
      decreases |s.rest|, more
    {
      ReadPairShortens(s.State());
      var id, time;
      ok, id, time := s.ReadPair();
      if !ok { return; }
      ReadCharShortens(s.State(), ',');
      clock := clock[id := time];
      more := s.ReadChar(',');
    }
    ok := true;
  }

  method ReadData(s: Stream, before: Data) returns (ok: bool, data: Data)
    modifies s
    ensures Parsed(ok, data, s.State()) == Text.ReadData(old(s.State()), before)
  {
    data := before;
    ok := s.ReadChar('{');
    if !ok { return; }
    var id := s.ExtractNat(16);
    data := data.(id := id);
    ok := s.ReadChar(',');
    if !ok { return; }
    var value := s.ExtractInt();
    data := data.(value := value);
    if s.fail { return false, data; }
    ok := s.ReadChar(',');
    if !ok { return; }
    var alters;
    ok, alters := ReadClock(s, data.alters);
    data := data.(alters := alters);
    if !ok { return; }
    ok := s.ReadChar('}');
  }

  method ReadEntry(s: Stream, before: Entry) returns (ok: bool, entry: Entry)
    modifies s
    ensures Parsed(ok, entry, s.State()) == Text.ReadEntry(old(s.State()), before)
  {
    entry := before;
    ok := s.ReadChar('{');
    if !ok { return; }
    var clock;
    ok, clock := ReadClock(s, entry.clock);
    entry := entry.(clock := clock);
    if !ok { return; }
    ok := s.ReadChar(',');
    if !ok { return; }
    var data;
    ok, data := ReadData(s, entry.data);
    entry := entry.(data := data);
    if !ok { return; }
    ok := s.ReadChar('}');
  }
}
