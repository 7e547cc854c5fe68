/** What readers accept: only text that spells out the tokens of a value, with its braces and commas. A number may
    have leading zeros and upper-case digits, blanks may stand before any token, and a clock may name an author
    twice; nothing else is read. */
module Grammars {
  import opened Clocks
  import opened Entries
  import opened Numbers
  import opened Text

  /** A character, a number in some base, or a decimal amount with an optional minus sign. */
  datatype Token = Mark(c: char) | Digits(base: nat, n: nat) | Amount(v: int)

  ghost predicate IsNumeral(text: string, base: nat, n: nat) {
    && text != [] && (forall i | 0 <= i < |text| :: IsDigit(text[i], base)) && NumberOf(text, base) == n
  }

  ghost predicate Spells(text: string, t: Token) {
    match t
    case Mark(c) => text == [c]
    case Digits(base, n) => IsNumeral(text, base, n)
    case Amount(v) =>
      || (v >= 0 && IsNumeral(text, 10, v))
      || (v <= 0 && text != [] && text[0] == '-' && IsNumeral(text[1..], 10, -v))
  }

  /** Before a character only spaces may stand, before a number any blanks. */
  ghost predicate Pads(text: string, t: Token) {
    forall i | 0 <= i < |text| :: if t.Mark? then text[i] == ' ' else IsSpace(text[i])
  }

  /** `s` starts with the token, and `next` is what comes after. */
  ghost predicate Lexed(s: string, t: Token, next: string) {
    exists k: nat, j: nat :: LexedAt(s, t, next, k, j)
  }

  ghost predicate LexedAt(s: string, t: Token, next: string, k: nat, j: nat) {
    k <= j <= |s| && Pads(s[..k], t) && Spells(s[k..j], t) && next == s[j..]
  }

  /** The tokens follow one another, from `s` to `next`. */
  ghost predicate Spelled(s: string, tokens: seq<Token>, next: string) { exists cuts :: SpelledBy(s, tokens, next, cuts) }

  /** `cuts[i]` is what is left before the `i`-th token. */
  ghost predicate SpelledBy(s: string, tokens: seq<Token>, next: string, cuts: seq<string>) {
    && |cuts| == |tokens| + 1 && cuts[0] == s && cuts[|tokens|] == next
    && forall i | 0 <= i < |tokens| :: Lexed(cuts[i], tokens[i], cuts[i + 1])
  }

  // The tokens of values

  type Pair = (Id, Time)

  function PairMarks(p: Pair): seq<Token> { [Mark('{'), Digits(16, p.0), Mark(','), Digits(10, p.1), Mark('}')] }

  function PairsMarks(pairs: seq<Pair>): seq<Token> {
    if pairs == [] then []
    else PairMarks(pairs[0]) + (if |pairs| == 1 then [] else [Mark(',')] + PairsMarks(pairs[1..]))
  }

  function ClockMarks(pairs: seq<Pair>): seq<Token> { [Mark('{')] + PairsMarks(pairs) + [Mark('}')] }

  /** A later pair of the same author overwrites an earlier one. */
  function Counted(before: Clock, pairs: seq<Pair>): Clock
    decreases pairs
  {
    if pairs == [] then before else Counted(before[pairs[0].0 := pairs[0].1], pairs[1..])
  }

  function DataMarks(id: Id, value: int, alters: seq<Pair>): seq<Token> {
    [Mark('{'), Digits(16, id), Mark(','), Amount(value), Mark(',')] + ClockMarks(alters) + [Mark('}')]
  }

  function EntryMarks(clock: seq<Pair>, id: Id, value: int, alters: seq<Pair>): seq<Token> {
    [Mark('{')] + ClockMarks(clock) + [Mark(',')] + DataMarks(id, value, alters) + [Mark('}')]
  }

  // Tokens

  lemma {:induction false} SkippedSpaces(s: string) returns (k: nat)
    ensures k <= |s| && SkipSpaces(s) == s[k..] && forall i | 0 <= i < k :: s[i] == ' '
  {
    k := 0;
    if s != [] && s[0] == ' ' {
      var j := SkippedSpaces(s[1..]);
      k := j + 1;
      assert s[1..][j..] == s[k..];
      assert forall i | 0 < i < k :: s[i] == s[1..][i - 1];
    }
  }

  lemma {:induction false} SkippedBlanks(s: string) returns (k: nat)
    ensures k <= |s| && SkipBlanks(s) == s[k..] && forall i | 0 <= i < k :: IsSpace(s[i])
  {
    k := 0;
    if s != [] && IsSpace(s[0]) {
      var j := SkippedBlanks(s[1..]);
      k := j + 1;
      assert s[1..][j..] == s[k..];
      assert forall i | 0 < i < k :: s[i] == s[1..][i - 1];
    }
  }

  lemma ReadCharLexes(s: In, c: char)
    requires ReadChar(s, c).ok
    ensures !s.fail && !ReadChar(s, c).next.fail && Lexed(s.rest, Mark(c), ReadChar(s, c).next.rest)
  {
    var k := SkippedSpaces(s.rest);
    assert s.rest[k..][1..] == s.rest[k + 1..];
    assert s.rest[k..k + 1] == [c];
    assert LexedAt(s.rest, Mark(c), ReadChar(s, c).next.rest, k, k + 1);
  }

  /** The numeral at the head of `t`, which stands at position `k` of `s`. */
  lemma RunIsNumeral(s: string, k: nat, base: nat)
    requires k <= |s| && Run(s[k..], base) > 0
    ensures var j := k + Run(s[k..], base);
            && j <= |s| && s[k..][Run(s[k..], base)..] == s[j..]
            && s[k..][..Run(s[k..], base)] == s[k..j] && IsNumeral(s[k..j], base, NumberOf(s[k..j], base))
  {
    RunIsDigits(s[k..], base);
  }

  lemma ReadNatLexes(s: In, base: nat)
    requires ReadNat(s, base).ok
    ensures !s.fail && !ReadNat(s, base).next.fail
    ensures Lexed(s.rest, Digits(base, ReadNat(s, base).value), ReadNat(s, base).next.rest)
  {
    var k := SkippedBlanks(s.rest);
    RunIsNumeral(s.rest, k, base);
    assert LexedAt(s.rest, Digits(base, ReadNat(s, base).value), ReadNat(s, base).next.rest, k, k + Run(s.rest[k..], base));
  }

  lemma ReadIntLexes(s: In)
    requires ReadInt(s).ok
    ensures !s.fail && !ReadInt(s).next.fail && Lexed(s.rest, Amount(ReadInt(s).value), ReadInt(s).next.rest)
  {
    var k := SkippedBlanks(s.rest);
    if k < |s.rest| && s.rest[k] == '-' {
      NegativeLexes(s.rest, k);
    } else {
      var p := ReadNat(In(s.rest[k..], false), 10);
      ReadNatLexes(In(s.rest[k..], false), 10);
      AfterBlanks(s.rest, k, p.value, p.next.rest);
    }
  }

  lemma AfterBlanks(s: string, k: nat, v: nat, next: string)
    requires k <= |s| && Pads(s[..k], Amount(v)) && Lexed(s[k..], Digits(10, v), next)
    ensures Lexed(s, Amount(v), next)
  {
    var i: nat, j: nat :| LexedAt(s[k..], Digits(10, v), next, i, j);
    assert s[k..][i..j] == s[k + i..k + j] && s[k..][j..] == s[k + j..];
    forall h | 0 <= h < k + i ensures IsSpace(s[h]) {
      assert if h < k then s[h] == s[..k][h] else s[h] == s[k..][..i][h - k];
    }
    assert LexedAt(s, Amount(v), next, k + i, k + j);
  }

  lemma NegativeLexes(s: string, k: nat)
    requires k < |s| && s[k] == '-' && Pads(s[..k], Amount(0)) && Run(s[k + 1..], 10) > 0
    ensures var n := Run(s[k + 1..], 10);
            && n <= |s[k + 1..]| && s[k..][1..] == s[k + 1..]
            && var v: int := NumberOf(s[k + 1..][..n], 10); Lexed(s, Amount(-v), s[k + 1..][n..])
  {
    RunIsNumeral(s, k + 1, 10);
    var j := k + 1 + Run(s[k + 1..], 10);
    assert s[k..j][1..] == s[k + 1..j];
    var v: int := NumberOf(s[k + 1..j], 10);
    assert LexedAt(s, Amount(-v), s[j..], k, j);
  }

  // Sequences of tokens

  lemma OneToken(s: string, t: Token, next: string)
    requires Lexed(s, t, next)
    ensures Spelled(s, [t], next)
  {
    assert SpelledBy(s, [t], next, [s, next]);
  }

  lemma Then(s: string, l1: seq<Token>, m: string, l2: seq<Token>, next: string)
    requires Spelled(s, l1, m) && Spelled(m, l2, next)
    ensures Spelled(s, l1 + l2, next)
  {
    var c1 :| SpelledBy(s, l1, m, c1);
    var c2 :| SpelledBy(m, l2, next, c2);
    assert SpelledBy(s, l1 + l2, next, c1[..|l1|] + c2);
  }

  lemma ThenOne(s: string, list: seq<Token>, m: string, t: Token, next: string)
    requires Spelled(s, list, m) && Lexed(m, t, next)
    ensures Spelled(s, list + [t], next)
  {
    OneToken(m, t, next);
    Then(s, list, m, [t], next);
  }

  lemma ThreeTokens(s: string, t1: Token, m1: string, t2: Token, m2: string, t3: Token, next: string)
    requires Lexed(s, t1, m1) && Lexed(m1, t2, m2) && Lexed(m2, t3, next)
    ensures Spelled(s, [t1, t2, t3], next)
  {
    assert SpelledBy(s, [t1, t2, t3], next, [s, m1, m2, next]);
  }

  lemma TwoTokens(s: string, t1: Token, m: string, t2: Token, next: string)
    requires Lexed(s, t1, m) && Lexed(m, t2, next)
    ensures Spelled(s, [t1, t2], next)
  {
    assert SpelledBy(s, [t1, t2], next, [s, m, next]);
  }

  lemma ThreeAndTwo(s: string, t1: Token, t2: Token, t3: Token, m: string, t4: Token, t5: Token, next: string)
    requires Spelled(s, [t1, t2, t3], m) && Spelled(m, [t4, t5], next)
    ensures Spelled(s, [t1, t2, t3, t4, t5], next)
  {
    Then(s, [t1, t2, t3], m, [t4, t5], next);
    assert [t1, t2, t3] + [t4, t5] == [t1, t2, t3, t4, t5];
  }

  // Readers

  /** A pair that is accepted was spelled out, brace by brace. */
  lemma PairIsSpelled(s: In)
    requires ReadPair(s).ok
    ensures !s.fail && !ReadPair(s).next.fail && Spelled(s.rest, PairMarks(ReadPair(s).value), ReadPair(s).next.rest)
  {
    var open := ReadChar(s, '{');
    ReadCharLexes(s, '{');
    var id := ReadNat(open.next, 16);
    ReadNatLexes(open.next, 16);
    var comma := ReadChar(id.next, ',');
    ReadCharLexes(id.next, ',');
    var time := ReadNat(comma.next, 10);
    ReadNatLexes(comma.next, 10);
    var close := ReadChar(time.next, '}');
    ReadCharLexes(time.next, '}');
    ThreeTokens(s.rest, Mark('{'), open.next.rest, Digits(16, id.value), id.next.rest, Mark(','), comma.next.rest);
    TwoTokens(comma.next.rest, Digits(10, time.value), time.next.rest, Mark('}'), close.next.rest);
    ThreeAndTwo(s.rest, Mark('{'), Digits(16, id.value), Mark(','), comma.next.rest, Digits(10, time.value), Mark('}'),
                close.next.rest);
  }

  lemma {:induction false} PairsAreSpelled(s: In, acc: Clock) returns (pairs: seq<Pair>)
    requires ReadPairs(s, acc).ok
    ensures !s.fail && !ReadPairs(s, acc).next.fail && ReadPairs(s, acc).value == Counted(acc, pairs)
    ensures pairs != [] && exists m :: Spelled(s.rest, PairsMarks(pairs), m) && AfterSpaces(In(m, false)) == ReadPairs(s, acc).next
    decreases |s.rest|
  {
    var p := ReadPair(s);
    PairIsSpelled(s);
    var more := ReadChar(p.next, ',');
    var acc1 := acc[p.value.0 := p.value.1];
    if more.ok {
      ReadPairShortens(s);
      ReadCharShortens(p.next, ',');
      ReadCharLexes(p.next, ',');
      var rest := PairsAreSpelled(more.next, acc1);
      pairs := [p.value] + rest;
      CountedStep(acc, p.value, rest);
      var m :| Spelled(more.next.rest, PairsMarks(rest), m) && AfterSpaces(In(m, false)) == ReadPairs(more.next, acc1).next;
      MorePairs(s.rest, p.value, p.next.rest, more.next.rest, rest, m);
    } else {
      pairs := [p.value];
      CountedStep(acc, p.value, []);
      LastPair(p.value);
    }
  }

  lemma CountedStep(acc: Clock, p: Pair, rest: seq<Pair>)
    ensures Counted(acc, [p] + rest) == Counted(acc[p.0 := p.1], rest)
    ensures [p] + [] == [p]
  {
    assert ([p] + rest)[1..] == rest;
  }

  lemma LastPair(p: Pair)
    ensures PairsMarks([p]) == PairMarks(p)
  {
    assert PairMarks(p) + [] == PairMarks(p);
  }

  lemma MorePairs(s: string, p: Pair, m1: string, m2: string, rest: seq<Pair>, next: string)
    requires rest != [] && Spelled(s, PairMarks(p), m1) && Lexed(m1, Mark(','), m2) && Spelled(m2, PairsMarks(rest), next)
    ensures Spelled(s, PairsMarks([p] + rest), next)
  {
    PairsMarksStep(p, rest);
    Around(s, PairMarks(p), m1, Mark(','), m2, PairsMarks(rest), next);
  }

  lemma PairsMarksStep(p: Pair, rest: seq<Pair>)
    requires rest != []
    ensures PairsMarks([p] + rest) == PairMarks(p) + [Mark(',')] + PairsMarks(rest)
  {
    assert ([p] + rest)[1..] == rest;
    assert PairMarks(p) + [Mark(',')] + PairsMarks(rest) == PairMarks(p) + ([Mark(',')] + PairsMarks(rest));
  }

  lemma Around(s: string, l1: seq<Token>, m1: string, t: Token, m2: string, l2: seq<Token>, next: string)
    requires Spelled(s, l1, m1) && Lexed(m1, t, m2) && Spelled(m2, l2, next)
    ensures Spelled(s, l1 + [t] + l2, next)
  {
    ThenOne(s, l1, m1, t, m2);
    Then(s, l1 + [t], m2, l2, next);
  }

  /** Spaces skipped before a character make no difference to it. */
  lemma SkippedBefore(m: In, c: char)
    ensures ReadChar(AfterSpaces(m), c) == ReadChar(m, c)
  {
    SpacesAreSkippedOnce(m.rest);
  }

  lemma {:induction false} SpacesAreSkippedOnce(s: string)
    ensures SkipSpaces(SkipSpaces(s)) == SkipSpaces(s)
  {
    if s != [] && s[0] == ' ' {
      SpacesAreSkippedOnce(s[1..]);
    }
  }

  lemma SpelledAfterSpaces(s: string, tokens: seq<Token>, next: string)
    requires tokens != [] && tokens[0].Mark? && Spelled(SkipSpaces(s), tokens, next)
    ensures Spelled(s, tokens, next)
  {
    var cuts :| SpelledBy(SkipSpaces(s), tokens, next, cuts);
    LexedAfterSpaces(s, tokens[0], cuts[1]);
    assert SpelledBy(s, tokens, next, cuts[0 := s]);
  }

  lemma LexedAfterSpaces(s: string, t: Token, m: string)
    requires t.Mark? && Lexed(SkipSpaces(s), t, m)
    ensures Lexed(s, t, m)
  {
    var k := SkippedSpaces(s);
    var i: nat, j: nat :| LexedAt(SkipSpaces(s), t, m, i, j);
    assert SkipSpaces(s)[i..j] == s[k + i..k + j] && SkipSpaces(s)[j..] == s[k + j..];
    forall h | 0 <= h < k + i ensures s[h] == ' ' {
      assert h >= k ==> s[h] == SkipSpaces(s)[..i][h - k];
    }
    assert LexedAt(s, t, m, k + i, k + j);
  }

  /** A clock that is accepted was spelled out, as pairs between braces with commas between them. */
  lemma ClockIsSpelled(s: In, acc: Clock) returns (pairs: seq<Pair>)
    requires ReadClock(s, acc).ok
    ensures !s.fail && !ReadClock(s, acc).next.fail && ReadClock(s, acc).value == Counted(acc, pairs)
    ensures Spelled(s.rest, ClockMarks(pairs), ReadClock(s, acc).next.rest)
  {
    var open := ReadChar(s, '{');
    ReadCharLexes(s, '{');
    OneToken(s.rest, Mark('{'), open.next.rest);
    var t := AfterSpaces(open.next);
    pairs := [];
    var m := open.next.rest;
    if Sees(t, '{') {
      pairs := PairsAreSpelled(t, acc);
      m :| Spelled(t.rest, PairsMarks(pairs), m) && AfterSpaces(In(m, false)) == ReadPairs(t, acc).next;
      assert PairsMarks(pairs)[0] == Mark('{');
      SpelledAfterSpaces(open.next.rest, PairsMarks(pairs), m);
    } else {
      assert SpelledBy(m, [], m, [m]);
    }
    SkippedBefore(In(m, false), '}');
    ReadCharLexes(In(m, false), '}');
    Then(s.rest, [Mark('{')], open.next.rest, PairsMarks(pairs), m);
    ThenOne(s.rest, [Mark('{')] + PairsMarks(pairs), m, Mark('}'), ReadClock(s, acc).next.rest);
  }

  /** A data record that is accepted was spelled out. */
  lemma DataIsSpelled(s: In, acc: Data) returns (alters: seq<Pair>)
    requires ReadData(s, acc).ok
    ensures !s.fail && !ReadData(s, acc).next.fail && ReadData(s, acc).value.alters == Counted(acc.alters, alters)
    ensures var d := ReadData(s, acc).value; Spelled(s.rest, DataMarks(d.id, d.value, alters), ReadData(s, acc).next.rest)
  {
    var open := ReadChar(s, '{');
    ReadCharLexes(s, '{');
    var id := ReadNat(open.next, 16);
    var comma := ReadChar(id.next, ',');
    ReadCharLexes(id.next, ',');
    ReadNatLexes(open.next, 16);
    var value := ReadInt(comma.next);
    ReadIntLexes(comma.next);
    var comma2 := ReadChar(value.next, ',');
    ReadCharLexes(value.next, ',');
    alters := ClockIsSpelled(comma2.next, acc.alters);
    var clock := ReadClock(comma2.next, acc.alters);
    ReadCharLexes(clock.next, '}');
    ThreeTokens(s.rest, Mark('{'), open.next.rest, Digits(16, id.value), id.next.rest, Mark(','), comma.next.rest);
    TwoTokens(comma.next.rest, Amount(value.value), value.next.rest, Mark(','), comma2.next.rest);
    ThreeAndTwo(s.rest, Mark('{'), Digits(16, id.value), Mark(','), comma.next.rest, Amount(value.value), Mark(','),
                comma2.next.rest);
    var front := [Mark('{'), Digits(16, id.value), Mark(','), Amount(value.value), Mark(',')];
    Then(s.rest, front, comma2.next.rest, ClockMarks(alters), clock.next.rest);
    ThenOne(s.rest, front + ClockMarks(alters), clock.next.rest, Mark('}'), ReadChar(clock.next, '}').next.rest);
  }

  /** An entry that is accepted was spelled out: what was consumed is, up to spacing, the tokens of its parts. */
  lemma EntryIsSpelled(s: In, acc: Entry) returns (clock: seq<Pair>, alters: seq<Pair>)
    requires ReadEntry(s, acc).ok
    ensures var e := ReadEntry(s, acc).value;
            && e.clock == Counted(acc.clock, clock) && e.data.alters == Counted(acc.data.alters, alters)
            && Spelled(s.rest, EntryMarks(clock, e.data.id, e.data.value, alters), ReadEntry(s, acc).next.rest)
  {
    var open := ReadChar(s, '{');
    ReadCharLexes(s, '{');
    clock := ClockIsSpelled(open.next, acc.clock);
    var c := ReadClock(open.next, acc.clock);
    ReadCharLexes(c.next, ',');
    var comma := ReadChar(c.next, ',');
    alters := DataIsSpelled(comma.next, acc.data);
    var d := ReadData(comma.next, acc.data);
    ReadCharLexes(d.next, '}');
    var data := DataMarks(d.value.id, d.value.value, alters);
    OneToken(s.rest, Mark('{'), open.next.rest);
    Then(s.rest, [Mark('{')], open.next.rest, ClockMarks(clock), c.next.rest);
    ThenOne(s.rest, [Mark('{')] + ClockMarks(clock), c.next.rest, Mark(','), comma.next.rest);
    Then(s.rest, [Mark('{')] + ClockMarks(clock) + [Mark(',')], comma.next.rest, data, d.next.rest);
    ThenOne(s.rest, [Mark('{')] + ClockMarks(clock) + [Mark(',')] + data, d.next.rest, Mark('}'), ReadEntry(s, acc).next.rest);
  }

  // Refusals

  lemma {:induction false} MarkIsThere(cuts: seq<string>, tokens: seq<Token>, i: nat, c: char)
    requires |cuts| == |tokens| + 1 && i < |tokens| && tokens[i] == Mark(c)
    requires forall h | 0 <= h < |tokens| :: Lexed(cuts[h], tokens[h], cuts[h + 1])
    ensures c in cuts[0]
    decreases i
  {
    var k: nat, j: nat :| LexedAt(cuts[0], tokens[0], cuts[1], k, j);
    if i == 0 {
      assert cuts[0][k..j][0] == c;
    } else {
      MarkIsThere(cuts[1..], tokens[1..], i - 1, c);
    }
  }

  lemma MarksAreThere(s: string, tokens: seq<Token>, next: string, c: char)
    requires Spelled(s, tokens, next) && Mark(c) in tokens
    ensures c in s
  {
    var cuts :| SpelledBy(s, tokens, next, cuts);
    var i: nat :| i < |tokens| && tokens[i] == Mark(c);
    MarkIsThere(cuts, tokens, i, c);
  }

  /** Without a brace or a comma that its form asks for, text is refused. */
  lemma IncompleteTextIsRefused(s: In, before: Entry)
    ensures ('{' !in s.rest || '}' !in s.rest) ==> !ReadClock(s, before.clock).ok
    ensures ('{' !in s.rest || '}' !in s.rest || ',' !in s.rest) ==> !ReadPair(s).ok
    ensures ('{' !in s.rest || '}' !in s.rest || ',' !in s.rest) ==> !ReadData(s, before.data).ok && !ReadEntry(s, before).ok
  {
    if ReadPair(s).ok {
      PairIsSpelled(s);
      AllMarks(s.rest, PairMarks(ReadPair(s).value), ReadPair(s).next.rest);
    }
    if ReadClock(s, before.clock).ok {
      var pairs := ClockIsSpelled(s, before.clock);
      var next := ReadClock(s, before.clock).next.rest;
      assert ClockMarks(pairs)[0] == Mark('{') && ClockMarks(pairs)[|ClockMarks(pairs)| - 1] == Mark('}');
      MarksAreThere(s.rest, ClockMarks(pairs), next, '{');
      MarksAreThere(s.rest, ClockMarks(pairs), next, '}');
    }
    if ReadData(s, before.data).ok {
      var alters := DataIsSpelled(s, before.data);
      var d := ReadData(s, before.data).value;
      AllMarks(s.rest, DataMarks(d.id, d.value, alters), ReadData(s, before.data).next.rest);
    }
    if ReadEntry(s, before).ok {
      var clock, alters := EntryIsSpelled(s, before);
      var d := ReadEntry(s, before).value.data;
      AllMarks(s.rest, EntryMarks(clock, d.id, d.value, alters), ReadEntry(s, before).next.rest);
    }
  }

  lemma AllMarks(s: string, tokens: seq<Token>, next: string)
    requires Spelled(s, tokens, next) && Mark('{') in tokens && Mark(',') in tokens && Mark('}') in tokens
    ensures '{' in s && ',' in s && '}' in s
  {
    MarksAreThere(s, tokens, next, '{');
    MarksAreThere(s, tokens, next, ',');
    MarksAreThere(s, tokens, next, '}');
  }
}
