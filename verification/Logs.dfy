/** A log is the printed entries of one author, one per line. What is printed is one spacing of the tokens that
    module RoundTrip reads, so a file of n lines reads back as its n entries, or its first ones. */
module Logs {
  import opened Clocks
  import opened Entries
  import opened Numbers
  import opened Listings
  import opened Text
  import opened RoundTrip

  // The printed form is one spacing of the tokens: one space after each comma

  function StdPads(tokens: seq<string>, afterComma: bool): (pads: seq<nat>)
    ensures |pads| == |tokens|
  {
    if tokens == [] then [] else [if afterComma then 1 else 0] + StdPads(tokens[1..], tokens[0] == ",")
  }

  function Std(tokens: seq<string>, afterComma: bool, rest: string): string {
    Weave(tokens, StdPads(tokens, afterComma), rest)
  }

  function Lead(afterComma: bool): string { if afterComma then " " else "" }

  lemma StdStep(tok: string, ts: seq<string>, b: bool, rest: string)
    ensures Std([tok] + ts, b, rest) == Lead(b) + (tok + Std(ts, tok == ",", rest))
  {
    var tokens := [tok] + ts;
    assert tokens[1..] == ts;
    WeaveHead(tok, ts, StdPads(tokens, b), rest);
    assert StdPads(tokens, b)[1..] == StdPads(ts, tok == ",");
    assert Spaces(1) == " " by { assert Spaces(0) == ""; }
  }

  lemma StdTwo(t0: string, t1: string, ts: seq<string>, b: bool, rest: string)
    requires t0 != ","
    ensures Std([t0, t1] + ts, b, rest) == Lead(b) + (t0 + (t1 + Std(ts, t1 == ",", rest)))
  {
    assert [t0, t1] + ts == [t0] + ([t1] + ts);
    StdStep(t0, [t1] + ts, b, rest);
    StdStep(t1, ts, false, rest);
    NoLead(t1 + Std(ts, t1 == ",", rest));
  }

  lemma NoLead(s: string)
    ensures Lead(false) + s == s
  {}

  lemma StdThree(t0: string, t1: string, ts: seq<string>, b: bool, rest: string)
    requires t0 != "," && t1 != ","
    ensures Std([t0, t1, ","] + ts, b, rest) == Lead(b) + (t0 + (t1 + ("," + Std(ts, true, rest))))
  {
    assert [t0, t1, ","] + ts == [t0] + ([t1, ","] + ts);
    StdStep(t0, [t1, ","] + ts, b, rest);
    StdTwo(t1, ",", ts, false, rest);
    NoLead(t1 + ("," + Std(ts, true, rest)));
  }

  /** Five tokens, the third a comma. */
  lemma StdFive(t0: string, t1: string, t3: string, t4: string, ts: seq<string>, b: bool, rest: string)
    requires t0 != "," && t1 != "," && t3 != ","
    ensures Std([t0, t1, ",", t3, t4] + ts, b, rest) ==
            Lead(b) + (t0 + (t1 + ("," + (" " + (t3 + (t4 + Std(ts, t4 == ",", rest)))))))
  {
    assert [t0, t1, ",", t3, t4] + ts == [t0, t1, ","] + ([t3, t4] + ts);
    StdThree(t0, t1, [t3, t4] + ts, b, rest);
    StdTwo(t3, t4, ts, true, rest);
  }

  lemma NumbersAreNotCommas(n: nat, v: int)
    ensures Print(n, 16) != "," && Print(n, 10) != "," && PrintInt(v) != ","
  {
    PrintIsDigits(n, 16);
    PrintIsDigits(n, 10);
    PrintIsDigits(if v < 0 then -v else v, 10);
  }

  lemma BracedPair(id: string, time: string, x: string)
    ensures "{" + (id + ("," + (" " + (time + ("}" + x))))) == "{" + id + ", " + time + "}" + x
  {}

  lemma PairIsStd(id: Id, time: Time, ts: seq<string>, b: bool, rest: string)
    ensures Std(["{", Print(id, 16), ",", Print(time, 10), "}"] + ts, b, rest) ==
            Lead(b) + (PrintPair(id, time) + Std(ts, false, rest))
  {
    var i, t := Print(id, 16), Print(time, 10);
    assert i != "," && t != "," by {
      NumbersAreNotCommas(id, 0);
      NumbersAreNotCommas(time, 0);
    }
    StdFive("{", i, t, "}", ts, b, rest);
    BracedPair(i, t, Std(ts, false, rest));
  }

  lemma MorePairs(next: string, after: string, x: string)
    ensures "," + (" " + (next + (after + x))) == ", " + next + after + x
  {}

  /** The first pair, a comma, and what the remaining pairs come to. */
  lemma PairThenMore(id: Id, time: Time, more: seq<string>, next: string, after: string, x: string,
                     b: bool, rest: string)
    requires Std(more, true, rest) == " " + (next + (after + x))
    ensures Std(["{", Print(id, 16), ",", Print(time, 10), "}"] + ([","] + more), b, rest) ==
            Lead(b) + (PrintPair(id, time) + (", " + next + after + x))
  {
    PairIsStd(id, time, [","] + more, b, rest);
    StdStep(",", more, false, rest);
    MorePairs(next, after, x);
  }

  lemma {:induction false} PairsAreStd(ids: seq<Id>, c: Clock, tail: seq<string>, b: bool, rest: string)
    requires ids != []
    ensures Std(PairTokens(ids, c, tail), b, rest) ==
            Lead(b) + (PrintPair(ids[0], At(c, ids[0])) + (PrintMorePairs(ids[1..], c) + Std(tail, false, rest)))
    decreases ids
  {
    if |ids| == 1 {
      PairIsStd(ids[0], At(c, ids[0]), tail, b, rest);
      assert PrintMorePairs(ids[1..], c) + Std(tail, false, rest) == Std(tail, false, rest);
    } else {
      var more := PairTokens(ids[1..], c, tail);
      PairsAreStd(ids[1..], c, tail, true, rest);
      PairThenMore(ids[0], At(c, ids[0]), more, PrintPair(ids[1], At(c, ids[1])), PrintMorePairs(ids[1..][1..], c),
                   Std(tail, false, rest), b, rest);
    }
  }

  lemma BracedPairs(pair: string, more: string, x: string)
    ensures "{" + (pair + (more + ("}" + x))) == "{" + pair + more + "}" + x
  {}

  lemma Brace(pairs: seq<string>, pair: string, more: string, x: string, b: bool, rest: string)
    requires Std(pairs, false, rest) == "" + (pair + (more + ("}" + x)))
    ensures Std(["{"] + pairs, b, rest) == Lead(b) + ("{" + pair + more + "}" + x)
  {
    StdStep("{", pairs, b, rest);
    BracedPairs(pair, more, x);
    assert "" + (pair + (more + ("}" + x))) == pair + (more + ("}" + x));
  }

  lemma EmptyBraces(tail: seq<string>, b: bool, rest: string)
    ensures Std(["{"] + (["}"] + tail), b, rest) == Lead(b) + ("{}" + Std(tail, false, rest))
  {
    StdStep("{", ["}"] + tail, b, rest);
    StdStep("}", tail, false, rest);
    var x := Std(tail, false, rest);
    assert "{" + ("" + ("}" + x)) == "{}" + x;
  }

  lemma Closed(tail: seq<string>, rest: string)
    ensures Std(["}"] + tail, false, rest) == "}" + Std(tail, false, rest)
  {
    StdStep("}", tail, false, rest);
    assert "" + ("}" + Std(tail, false, rest)) == "}" + Std(tail, false, rest);
  }

  lemma ClockIsStd(c: Clock, tail: seq<string>, b: bool, rest: string)
    ensures Std(ClockTokens(c, tail), b, rest) == Lead(b) + (PrintClock(c) + Std(tail, false, rest))
  {
    var ids := SortedIds(c.Keys);
    if ids == [] {
      EmptyBraces(tail, b, rest);
    } else {
      Closed(tail, rest);
      PairsAreStd(ids, c, ["}"] + tail, false, rest);
      Brace(PairTokens(ids, c, ["}"] + tail), PrintPair(ids[0], At(c, ids[0])), PrintMorePairs(ids[1..], c),
            Std(tail, false, rest), b, rest);
    }
  }

  lemma BracedData(id: string, value: string, alters: string, x: string)
    ensures "{" + (id + ("," + (" " + (value + ("," + (" " + (alters + ("}" + x)))))))) ==
            "{" + id + ", " + value + ", " + alters + "}" + x
  {}

  lemma FiveThenClock(id: string, value: string, ts: seq<string>, alters: string, x: string, b: bool, rest: string)
    requires id != "," && value != ","
    requires Std(ts, true, rest) == " " + (alters + ("}" + x))
    ensures Std(["{", id, ",", value, ","] + ts, b, rest) ==
            Lead(b) + ("{" + id + ", " + value + ", " + alters + "}" + x)
  {
    StdFive("{", id, value, ",", ts, b, rest);
    BracedData(id, value, alters, x);
  }

  lemma DataIsStd(d: Data, tail: seq<string>, b: bool, rest: string)
    ensures Std(DataTokens(d, tail), b, rest) == Lead(b) + (PrintData(d) + Std(tail, false, rest))
  {
    var id, value := Print(d.id, 16), PrintInt(d.value);
    assert id != "," && value != "," by {
      NumbersAreNotCommas(d.id, d.value);
    }
    ClockIsStd(d.alters, ["}"] + tail, true, rest);
    Closed(tail, rest);
    FiveThenClock(id, value, ClockTokens(d.alters, ["}"] + tail), PrintClock(d.alters), Std(tail, false, rest), b, rest);
  }

  lemma TwoParts(first: seq<string>, second: seq<string>, clock: string, data: string, rest: string)
    requires Std(second, true, rest) == " " + (data + ("}" + rest))
    requires Std(first, false, rest) == "" + (clock + Std([","] + second, false, rest))
    ensures Std(["{"] + first, false, rest) == "{" + clock + ", " + data + "}" + rest
  {
    StdStep("{", first, false, rest);
    StdStep(",", second, false, rest);
    Unlead(clock, data, rest);
  }

  lemma Unlead(clock: string, data: string, x: string)
    ensures "" + ("{" + ("" + (clock + ("" + ("," + (" " + (data + ("}" + x)))))))) ==
            "{" + clock + ", " + data + "}" + x
  {}

  lemma PrintedIsStd(e: Entry, rest: string)
    ensures PrintEntry(e) + rest == Std(EntryTokens(e, []), false, rest)
  {
    var second := DataTokens(e.data, ["}"]);
    assert ["}"] + [] == ["}"];
    Closed([], rest);
    DataIsStd(e.data, ["}"], true, rest);
    ClockIsStd(e.clock, [","] + second, false, rest);
    TwoParts(ClockTokens(e.clock, [","] + second), second, PrintClock(e.clock), PrintData(e.data), rest);
  }

  /** Reading a printed entry gives the entry back and leaves what follows it. */
  lemma PrintedRoundTrip(e: Entry, rest: string)
    ensures ReadEntry(In(PrintEntry(e) + rest, false), NOTHING) == Parsed(true, e, In(rest, false))
  {
    PrintedIsStd(e, rest);
    EntryRoundTrip(e, StdPads(EntryTokens(e, []), false), rest);
  }

  // Lines

  function LogText(log: seq<Entry>): string {
    if log == [] then "" else PrintEntry(log[0]) + "\n" + LogText(log[1..])
  }

  /** The reading loop of `entries` on one file: `count` attempts, keeping what parses. */
  function ReadLines(s: In, count: nat): seq<Entry>
    decreases count
  {
    if count == 0 then []
    else
      var p := ReadEntry(s, NOTHING);
      (if p.ok then [p.value] else []) + ReadLines(ReadChar(p.next, '\n').next, count - 1)
  }

  /** The form itself: hexadecimal ids, decimal counts and amounts, one space after each comma. */
  lemma PrintedExample()
    ensures PrintEntry(Entry(map[10 := 1], Data(10, -7, map[]))) == "{{{a, 1}}, {a, -7, {}}}"
  {
    PrintedClock();
    PrintedData();
    assert "{" + "{{a, 1}}" + ", " == "{{{a, 1}}, ";
  }

  lemma PrintedClock()
    ensures PrintClock(map[10 := 1]) == "{{a, 1}}"
  {
    PrintedDigits();
    PrintOnePair(10, 1, map[10 := 1]);
    assert PrintPair(10, 1) == "{a, 1}";
  }

  lemma PrintedData()
    ensures PrintData(Data(10, -7, map[])) == "{a, -7, {}}"
  {
    PrintedDigits();
    assert PrintClock(map[]) == "{}";
  }

  lemma PrintedDigits()
    ensures Print(10, 16) == "a" && Print(1, 10) == "1" && PrintInt(-7) == "-7"
  {
    DigitIsLower(10);
    DigitIsLower(1);
    DigitIsLower(7);
  }

  lemma PrintOnePair(a: Id, n: Time, c: Clock)
    requires c == map[a := n]
    ensures PrintClock(c) == "{" + PrintPair(a, n) + "}"
  {
    assert c.Keys == {a} && {a} - {a} == {};
    assert SortedIds({a}) == [a];
  }

  lemma {:induction false} NothingLeft(s: In, count: nat)
    requires s.fail || s.rest == []
    ensures ReadLines(s, count) == []
  {
    if count > 0 {
      NothingLeft(s, count - 1);
    }
  }

  /** One line: the entry, then the end of the line is consumed. */
  lemma LineRoundTrip(e: Entry, rest: string)
    ensures ReadEntry(In(PrintEntry(e) + "\n" + rest, false), NOTHING) == Parsed(true, e, In("\n" + rest, false))
  {
    Reassociate(PrintEntry(e), rest);
    PrintedRoundTrip(e, "\n" + rest);
  }

  lemma Reassociate(line: string, rest: string)
    ensures line + "\n" + rest == line + ("\n" + rest)
  {}

  lemma LineEnds(rest: string)
    ensures ReadChar(In("\n" + rest, false), '\n').next == In(rest, false)
  {
    assert ("\n" + rest)[1..] == rest;
  }

  /** A log of n printed lines reads back as the same n entries, or as its first `count`. */
  lemma {:induction false} LogRoundTrip(log: seq<Entry>, count: nat)
    ensures ReadLines(In(LogText(log), false), count) == Prefix(log, count)
    decreases count
  {
    if log == [] {
      NothingLeft(In("", false), count);
    } else if count > 0 {
      var rest, k := log[1..], count - 1;
      LogRoundTrip(rest, k);
      FirstLine(log, rest, k);
    }
  }

  lemma FirstLine(log: seq<Entry>, rest: seq<Entry>, k: nat)
    requires log != [] && rest == log[1..]
    requires ReadLines(In(LogText(rest), false), k) == Prefix(rest, k)
    ensures ReadLines(In(LogText(log), false), k + 1) == Prefix(log, k + 1)
  {
    PrefixStep(log, rest, k);
    LineOfLog(log[0], LogText(rest), Prefix(rest, k), k);
  }

  lemma PrefixStep(log: seq<Entry>, rest: seq<Entry>, k: nat)
    requires log != [] && rest == log[1..]
    ensures Prefix(log, k + 1) == [log[0]] + Prefix(rest, k)
  {
    assert log == [log[0]] + rest;
  }

  lemma LineOfLog(e: Entry, text: string, tail: seq<Entry>, k: nat)
    requires ReadLines(In(text, false), k) == tail
    ensures ReadLines(In(PrintEntry(e) + "\n" + text, false), k + 1) == [e] + tail
  {
    LineRoundTrip(e, text);
    LineEnds(text);
  }

  lemma {:induction false} LogTextConcat(l1: seq<Entry>, l2: seq<Entry>)
    ensures LogText(l1 + l2) == LogText(l1) + LogText(l2)
  {
    if l1 == [] {
      assert l1 + l2 == l2;
    } else {
      assert (l1 + l2)[0] == l1[0] && (l1 + l2)[1..] == l1[1..] + l2;
      LogTextConcat(l1[1..], l2);
    }
  }

  /** Saving appends one line. */
  lemma LogTextAppend(log: seq<Entry>, e: Entry)
    ensures LogText(log + [e]) == LogText(log) + (PrintEntry(e) + "\n")
  {
    LogTextConcat(log, [e]);
    assert [e][1..] == [];
    assert LogText([e]) == PrintEntry(e) + "\n";
  }
}
