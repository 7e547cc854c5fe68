/** Printing and reading are inverse. The tokens of a number, a pair, a clock, a record or an entry, with any
    spacing between them and any text after them, read back as the value, and leave that text to whatever reads
    next. */
module RoundTrip {
  import opened Clocks
  import opened Entries
  import opened Numbers
  import opened Listings
  import opened Text

  function Start(tokens: seq<string>, pads: seq<nat>, rest: string): In
    requires |pads| >= |tokens|
  {
    In(Weave(tokens, pads, rest), false)
  }

  /** The pads with the first already skipped. */
  function Flush(pads: seq<nat>): seq<nat>
    requires pads != []
  {
    [0] + pads[1..]
  }

  lemma {:induction false} SkipsSpaces(k: nat, s: string)
    requires s == [] || s[0] != ' '
    ensures SkipSpaces(Spaces(k) + s) == s
  {
    if k == 0 {
      assert Spaces(k) + s == s;
    } else {
      assert (Spaces(k) + s)[0] == ' ' && (Spaces(k) + s)[1..] == Spaces(k - 1) + s;
      SkipsSpaces(k - 1, s);
    }
  }

  lemma {:induction false} SkipsBlanks(k: nat, s: string)
    requires s == [] || !IsSpace(s[0])
    ensures SkipBlanks(Spaces(k) + s) == s
  {
    if k == 0 {
      assert Spaces(k) + s == s;
    } else {
      assert (Spaces(k) + s)[0] == ' ' && (Spaces(k) + s)[1..] == Spaces(k - 1) + s;
      SkipsBlanks(k - 1, s);
    }
  }

  lemma WeaveHead(tok: string, ts: seq<string>, pads: seq<nat>, rest: string)
    requires |pads| >= 1 + |ts|
    ensures Weave([tok] + ts, pads, rest) == Spaces(pads[0]) + (tok + Weave(ts, pads[1..], rest))
  {
    assert ([tok] + ts)[1..] == ts;
    assert Spaces(pads[0]) + tok + Weave(ts, pads[1..], rest) == Spaces(pads[0]) + (tok + Weave(ts, pads[1..], rest));
  }

  lemma SkipToToken(tok: string, ts: seq<string>, pads: seq<nat>, rest: string)
    requires |pads| >= 1 + |ts| && tok != [] && !IsSpace(tok[0])
    ensures AfterSpaces(Start([tok] + ts, pads, rest)) == In(tok + Weave(ts, pads[1..], rest), false)
    ensures AfterSpaces(Start([tok] + ts, pads, rest)) == Start([tok] + ts, Flush(pads), rest)
  {
    WeaveHead(tok, ts, pads, rest);
    WeaveHead(tok, ts, Flush(pads), rest);
    SkipsSpaces(pads[0], tok + Weave(ts, pads[1..], rest));
    assert Flush(pads)[1..] == pads[1..];
    assert Spaces(0) + (tok + Weave(ts, pads[1..], rest)) == tok + Weave(ts, pads[1..], rest);
  }

  lemma ReadsChar(c: char, ts: seq<string>, pads: seq<nat>, rest: string)
    requires |pads| >= 1 + |ts| && !IsSpace(c)
    ensures ReadChar(Start([[c]] + ts, pads, rest), c) == Parsed(true, (), Start(ts, pads[1..], rest))
  {
    SkipToToken([c], ts, pads, rest);
    assert ([c] + Weave(ts, pads[1..], rest))[1..] == Weave(ts, pads[1..], rest);
  }

  lemma MissesChar(c: char, tok: string, ts: seq<string>, pads: seq<nat>, rest: string)
    requires |pads| >= 1 + |ts| && tok != [] && !IsSpace(tok[0]) && tok[0] != c
    ensures ReadChar(Start([tok] + ts, pads, rest), c) == Parsed(false, (), Start([tok] + ts, Flush(pads), rest))
  {
    SkipToToken(tok, ts, pads, rest);
  }

  /** After a number comes a comma or a closing brace, so the digit run ends where it should. */
  predicate Closes(ts: seq<string>) { ts != [] && (ts[0] == "," || ts[0] == "}") }

  lemma WhatFollowsANumber(ts: seq<string>, pads: seq<nat>, rest: string, base: nat)
    requires Closes(ts) && |pads| >= |ts| && base <= 16
    ensures var t := Weave(ts, pads, rest); t != [] && !IsDigit(t[0], base)
  {
    if pads[0] > 0 {
      assert Spaces(pads[0])[0] == ' ';
    }
  }

  lemma DigitsAreNotBlank(s: string)
    requires s != [] && IsDigit(s[0], 16)
    ensures !IsSpace(s[0]) && s[0] != '-'
  {}

  lemma ReadsNat(n: nat, base: nat, ts: seq<string>, pads: seq<nat>, rest: string)
    requires |pads| >= 1 + |ts| && Closes(ts) && (base == 10 || base == 16)
    ensures ReadNat(Start([Print(n, base)] + ts, pads, rest), base) == Parsed(true, n, Start(ts, pads[1..], rest))
  {
    var p, t := Print(n, base), Weave(ts, pads[1..], rest);
    PrintIsDigits(n, base);
    PrintRoundTrip(n, base);
    DigitsAreNotBlank(p);
    WeaveHead(p, ts, pads, rest);
    SkipsBlanks(pads[0], p + t);
    WhatFollowsANumber(ts, pads[1..], rest, base);
    RunStops(p, t, base);
    assert (p + t)[..|p|] == p && (p + t)[|p|..] == t;
  }

  lemma ReadsInt(v: int, ts: seq<string>, pads: seq<nat>, rest: string)
    requires |pads| >= 1 + |ts| && Closes(ts)
    ensures ReadInt(Start([PrintInt(v)] + ts, pads, rest)) == Parsed(true, v, Start(ts, pads[1..], rest))
  {
    if v < 0 {
      ReadsNegative(v, -v, ts, pads, rest);
    } else {
      ReadsNat(v, 10, ts, pads, rest);
      PrintIsDigits(v, 10);
      DigitsAreNotBlank(Print(v, 10));
      WeaveHead(Print(v, 10), ts, pads, rest);
      NoMinusIsNat(Start([Print(v, 10)] + ts, pads, rest), pads[0], Print(v, 10) + Weave(ts, pads[1..], rest));
    }
  }

  lemma NoMinusIsNat(s: In, k: nat, t: string)
    requires s == In(Spaces(k) + t, false) && t != [] && !IsSpace(t[0]) && t[0] != '-'
    ensures ReadInt(s).ok == ReadNat(s, 10).ok && ReadInt(s).value == ReadNat(s, 10).value
    ensures ReadInt(s).next == ReadNat(s, 10).next
  {
    SkipsBlanks(k, t);
  }

  lemma ReadsNegative(v: int, n: nat, ts: seq<string>, pads: seq<nat>, rest: string)
    requires |pads| >= 1 + |ts| && Closes(ts) && v < 0 && n == -v
    ensures ReadInt(Start([['-'] + Print(n, 10)] + ts, pads, rest)) == Parsed(true, v, Start(ts, pads[1..], rest))
  {
    var t := Weave(ts, pads[1..], rest);
    WeaveHead(['-'] + Print(n, 10), ts, pads, rest);
    SkipsBlanks(pads[0], ['-'] + Print(n, 10) + t);
    WhatFollowsANumber(ts, pads[1..], rest, 10);
    NegativeDigits(n, t);
  }

  lemma NegativeDigits(n: nat, t: string)
    requires t != [] && !IsDigit(t[0], 10)
    ensures var s := ['-'] + Print(n, 10) + t;
            && s[1..] == Print(n, 10) + t
            && Run(s[1..], 10) == |Print(n, 10)| > 0
            && NumberOf(s[1..][..|Print(n, 10)|], 10) == n
            && s[1..][|Print(n, 10)|..] == t
  {
    PrintIsDigits(n, 10);
    PrintRoundTrip(n, 10);
    RunStops(Print(n, 10), t, 10);
    MinusThenDigits(Print(n, 10), t);
  }

  lemma MinusThenDigits(p: string, t: string)
    ensures (['-'] + p + t)[1..] == p + t
    ensures (p + t)[..|p|] == p && (p + t)[|p|..] == t
  {}

  /** The tokens of one pair, then more. */
  lemma ReadsPair(id: Id, time: Time, ts: seq<string>, pads: seq<nat>, rest: string)
    requires |pads| >= 5 + |ts|
    ensures ReadPair(Start(["{", Print(id, 16), ",", Print(time, 10), "}"] + ts, pads, rest)) ==
            Parsed(true, (id, time), Start(ts, pads[5..], rest))
  {
    var t4 := ["}"] + ts;
    var t3 := [Print(time, 10)] + t4;
    var t2 := [","] + t3;
    var t1 := [Print(id, 16)] + t2;
    assert ["{", Print(id, 16), ",", Print(time, 10), "}"] + ts == ["{"] + t1;
    ReadsChar('{', t1, pads, rest);
    ReadsNat(id, 16, t2, pads[1..], rest);
    assert pads[1..][1..] == pads[2..] && pads[2..][1..] == pads[3..] && pads[3..][1..] == pads[4..] && pads[4..][1..] == pads[5..];
    ReadsChar(',', t3, pads[2..], rest);
    ReadsNat(time, 10, t4, pads[3..], rest);
    ReadsChar('}', ts, pads[4..], rest);
  }

  lemma SliceOfSlice(pads: seq<nat>, i: nat, j: nat)
    requires i + j <= |pads|
    ensures pads[i..][j..] == pads[i + j..]
  {}

  function Collect(acc: Clock, ids: seq<Id>, c: Clock): Clock
    decreases ids
  {
    if ids == [] then acc else Collect(acc[ids[0] := At(c, ids[0])], ids[1..], c)
  }

  lemma ReadsLastPair(id: Id, time: Time, tail: seq<string>, pads: seq<nat>, rest: string, acc: Clock)
    requires tail != [] && tail[0] == "}" && |pads| >= 5 + |tail|
    ensures ReadPairs(Start(["{", Print(id, 16), ",", Print(time, 10), "}"] + tail, pads, rest), acc) ==
            Parsed(true, acc[id := time], Start(tail, Flush(pads[5..]), rest))
  {
    ReadsPair(id, time, tail, pads, rest);
    assert tail == ["}"] + tail[1..];
    MissesChar(',', "}", tail[1..], pads[5..], rest);
  }

  lemma ReadsPairAndComma(id: Id, time: Time, more: seq<string>, pads: seq<nat>, rest: string, acc: Clock)
    requires |pads| >= 6 + |more|
    ensures ReadPairs(Start(["{", Print(id, 16), ",", Print(time, 10), "}"] + ([","] + more), pads, rest), acc) ==
            ReadPairs(Start(more, pads[6..], rest), acc[id := time])
  {
    ReadsPair(id, time, [","] + more, pads, rest);
    ReadsChar(',', more, pads[5..], rest);
    SliceOfSlice(pads, 5, 1);
  }

  lemma PairTokensStep(ids: seq<Id>, c: Clock, tail: seq<string>)
    requires |ids| > 1
    ensures PairTokens(ids, c, tail) ==
            ["{", Print(ids[0], 16), ",", Print(At(c, ids[0]), 10), "}"] + ([","] + PairTokens(ids[1..], c, tail))
    ensures |PairTokens(ids, c, tail)| == 6 + |PairTokens(ids[1..], c, tail)|
  {}

  lemma {:induction false} PairTokensEndInTail(ids: seq<Id>, c: Clock, tail: seq<string>) returns (k: nat)
    requires ids != []
    ensures |PairTokens(ids, c, tail)| == k + |tail|
    decreases ids
  {
    if |ids| == 1 {
      k := 5;
    } else {
      k := PairTokensEndInTail(ids[1..], c, tail);
      PairTokensStep(ids, c, tail);
      k := k + 6;
    }
  }

  /** What reading the tokens of the pairs of `ids` comes to. */
  ghost predicate PairsRead(ids: seq<Id>, c: Clock, tail: seq<string>, pads: seq<nat>, rest: string, acc: Clock, k: nat)
    requires ids != [] && tail != []
    requires |pads| >= |PairTokens(ids, c, tail)| == k + |tail|
  {
    ReadPairs(Start(PairTokens(ids, c, tail), pads, rest), acc) ==
    Parsed(true, Collect(acc, ids, c), Start(tail, Flush(pads[k..]), rest))
  }

  lemma PairsReadStep(ids: seq<Id>, c: Clock, tail: seq<string>, pads: seq<nat>, rest: string, acc: Clock, k: nat)
    requires |ids| > 1 && tail != []
    requires |PairTokens(ids[1..], c, tail)| == k + |tail| && |pads| >= 6 + k + |tail|
    requires PairsRead(ids[1..], c, tail, pads[6..], rest, acc[ids[0] := At(c, ids[0])], k)
    ensures |PairTokens(ids, c, tail)| == 6 + k + |tail|
    ensures PairsRead(ids, c, tail, pads, rest, acc, 6 + k)
  {
    PairTokensStep(ids, c, tail);
    ReadsPairAndComma(ids[0], At(c, ids[0]), PairTokens(ids[1..], c, tail), pads, rest, acc);
    SliceOfSlice(pads, 6, k);
  }

  lemma {:induction false} ReadsPairs(ids: seq<Id>, c: Clock, tail: seq<string>, pads: seq<nat>, rest: string, acc: Clock, k: nat)
    requires ids != [] && tail != [] && tail[0] == "}"
    requires |pads| >= |PairTokens(ids, c, tail)| == k + |tail|
    ensures PairsRead(ids, c, tail, pads, rest, acc, k)
    decreases ids
  {
    if |ids| == 1 {
      assert ids[1..] == [];
      ReadsLastPair(ids[0], At(c, ids[0]), tail, pads, rest, acc);
    } else {
      var m := PairTokensEndInTail(ids[1..], c, tail);
      PairTokensStep(ids, c, tail);
      ReadsPairs(ids[1..], c, tail, pads[6..], rest, acc[ids[0] := At(c, ids[0])], m);
      PairsReadStep(ids, c, tail, pads, rest, acc, m);
    }
  }

  lemma {:induction false} CollectIsMap(acc: Clock, ids: seq<Id>, c: Clock)
    ensures forall a :: a in Collect(acc, ids, c) <==> a in acc || a in ids
    ensures forall a | a in ids :: Collect(acc, ids, c)[a] == At(c, a)
    ensures forall a | a in acc && a !in ids :: Collect(acc, ids, c)[a] == acc[a]
    decreases ids
  {
    if ids != [] {
      CollectIsMap(acc[ids[0] := At(c, ids[0])], ids[1..], c);
      assert forall a :: a in ids <==> a == ids[0] || a in ids[1..];
    }
  }

  lemma CollectSorted(c: Clock)
    ensures Collect(map[], SortedIds(c.Keys), c) == c
  {
    CollectIsMap(map[], SortedIds(c.Keys), c);
    SortedIdsAreAscending(c.Keys);
  }

  lemma ReadsEmptyClock(tail: seq<string>, pads: seq<nat>, rest: string)
    requires |pads| >= 2 + |tail|
    ensures ReadClock(Start(["{"] + (["}"] + tail), pads, rest), map[]) == Parsed(true, map[], Start(tail, pads[2..], rest))
  {
    ReadsChar('{', ["}"] + tail, pads, rest);
    SkipToToken("}", tail, pads[1..], rest);
    ReadsChar('}', tail, Flush(pads[1..]), rest);
    assert Flush(pads[1..])[1..] == pads[2..];
  }

  lemma FlushedSlice(pads: seq<nat>, k: nat)
    requires 0 < |pads| && k < |pads|
    ensures Flush(Flush(pads)[k..])[1..] == pads[k + 1..]
  {}

  lemma ReadsPairsInBraces(ids: seq<Id>, c: Clock, tail: seq<string>, pads: seq<nat>, rest: string)
    requires ids != [] && |pads| >= 1 + |PairTokens(ids, c, ["}"] + tail)|
    ensures |PairTokens(ids, c, ["}"] + tail)| > |tail|
    ensures ReadClock(Start(["{"] + PairTokens(ids, c, ["}"] + tail), pads, rest), map[]) ==
            Parsed(true, Collect(map[], ids, c), Start(tail, pads[1 + |PairTokens(ids, c, ["}"] + tail)| - |tail|..], rest))
  {
    var close, more := ["}"] + tail, PairTokens(ids, c, ["}"] + tail);
    var k := PairTokensEndInTail(ids, c, close);
    ReadsChar('{', more, pads, rest);
    assert more == ["{"] + more[1..];
    SkipToToken("{", more[1..], pads[1..], rest);
    ReadsPairs(ids, c, close, Flush(pads[1..]), rest, map[], k);
    ReadsChar('}', tail, Flush(Flush(pads[1..])[k..]), rest);
    FlushedSlice(pads[1..], k);
    SliceOfSlice(pads, 1, k + 1);
  }

  lemma ReadsClock(c: Clock, tail: seq<string>, pads: seq<nat>, rest: string)
    requires |pads| >= |ClockTokens(c, tail)|
    ensures |ClockTokens(c, tail)| >= |tail|
    ensures ReadClock(Start(ClockTokens(c, tail), pads, rest), map[]) ==
            Parsed(true, c, Start(tail, pads[|ClockTokens(c, tail)| - |tail|..], rest))
  {
    CollectSorted(c);
    if SortedIds(c.Keys) == [] {
      ReadsEmptyClock(tail, pads, rest);
    } else {
      ReadsPairsInBraces(SortedIds(c.Keys), c, tail, pads, rest);
    }
  }

  // Whole entries

  lemma ReadsIdAndValue(d: Data, ts: seq<string>, pads: seq<nat>, rest: string)
    requires |pads| >= 5 + |ts|
    ensures var open := ReadChar(Start(["{", Print(d.id, 16), ",", PrintInt(d.value), ","] + ts, pads, rest), '{');
            var id := ReadNat(open.next, 16);
            var comma := ReadChar(id.next, ',');
            var value := ReadInt(comma.next);
            && open.ok && comma.ok && value.ok && id.value == d.id && value.value == d.value
            && ReadChar(value.next, ',') == Parsed(true, (), Start(ts, pads[5..], rest))
  {
    var t4 := [","] + ts;
    var t3 := [PrintInt(d.value)] + t4;
    var t2 := [","] + t3;
    var t1 := [Print(d.id, 16)] + t2;
    assert ["{", Print(d.id, 16), ",", PrintInt(d.value), ","] + ts == ["{"] + t1;
    ReadsChar('{', t1, pads, rest);
    SliceOfSlice(pads, 1, 1);
    ReadsNat(d.id, 16, t2, pads[1..], rest);
    SliceOfSlice(pads, 2, 1);
    ReadsChar(',', t3, pads[2..], rest);
    SliceOfSlice(pads, 3, 1);
    ReadsInt(d.value, t4, pads[3..], rest);
    SliceOfSlice(pads, 4, 1);
    ReadsChar(',', ts, pads[4..], rest);
  }

  lemma ReadsData(d: Data, tail: seq<string>, pads: seq<nat>, rest: string, acc: Data)
    requires |pads| >= |DataTokens(d, tail)| && acc.alters == map[]
    ensures |DataTokens(d, tail)| >= |tail|
    ensures ReadData(Start(DataTokens(d, tail), pads, rest), acc) ==
            Parsed(true, d, Start(tail, pads[|DataTokens(d, tail)| - |tail|..], rest))
  {
    var ts := ClockTokens(d.alters, ["}"] + tail);
    ReadsIdAndValue(d, ts, pads, rest);
    ReadsClock(d.alters, ["}"] + tail, pads[5..], rest);
    var k := |ts| - |["}"] + tail|;
    SliceOfSlice(pads, 5, k);
    ReadsChar('}', tail, pads[5 + k..], rest);
    SliceOfSlice(pads, 5 + k, 1);
  }

  lemma ReadsDataAndClose(d: Data, pads: seq<nat>, rest: string)
    requires |pads| == 1 + |DataTokens(d, ["}"])|
    ensures ReadChar(Start([","] + DataTokens(d, ["}"]), pads, rest), ',') == Parsed(true, (), Start(DataTokens(d, ["}"]), pads[1..], rest))
    ensures var p := ReadData(Start(DataTokens(d, ["}"]), pads[1..], rest), NOTHING.data);
            p.ok && p.value == d && ReadChar(p.next, '}') == Parsed(true, (), In(rest, false))
  {
    var ts := DataTokens(d, ["}"]);
    ReadsChar(',', ts, pads, rest);
    ReadsData(d, ["}"], pads[1..], rest, NOTHING.data);
    assert ["}"] + [] == ["}"];
    ReadsChar('}', [], pads[1..][|ts| - 1..], rest);
  }

  /** Text round trip: the tokens of an entry, with any spaces before each, followed by any text,
      read back as that entry and leave exactly that text. */
  lemma EntryRoundTrip(e: Entry, pads: seq<nat>, rest: string)
    requires |pads| == |EntryTokens(e, [])|
    ensures ReadEntry(In(Weave(EntryTokens(e, []), pads, rest), false), NOTHING) == Parsed(true, e, In(rest, false))
  {
    assert ["}"] + [] == ["}"];
    var t2 := [","] + DataTokens(e.data, ["}"]);
    var t1 := ClockTokens(e.clock, t2);
    ReadsChar('{', t1, pads, rest);
    ReadsClock(e.clock, t2, pads[1..], rest);
    ReadsDataAndClose(e.data, pads[1..][|t1| - |t2|..], rest);
  }
}
