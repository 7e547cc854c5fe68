/** The ledger: a fold of the entry list into one row per target and a running balance. */
module Ledgers {
  import opened Clocks
  import opened Entries

  datatype Action = Ignore | Insert | Replace
  datatype ActionClock = ActionClock(act: Action, what: Clock)
  datatype Book = Book(rows: map<Clock, Entry>, balance: int)

  const EMPTY: Book := Book(map[], 0)

  function Replaces(existing: Entry, incoming: Entry): ActionClock {
    if incoming.data.alters == map[] then ActionClock(Ignore, map[])
    else if SmallerThan(existing.clock, incoming.clock) then ActionClock(Replace, incoming.data.alters)
    else if SmallerThan(incoming.clock, existing.clock) then ActionClock(Ignore, map[])
    else if existing.data.id < incoming.data.id then ActionClock(Replace, incoming.data.alters)
    else ActionClock(Ignore, map[])
  }

  function Evaluate(rows: map<Clock, Entry>, incoming: Entry): ActionClock {
    if incoming.data.alters == map[] then
      if incoming.clock !in rows then ActionClock(Insert, incoming.clock) else ActionClock(Ignore, map[])
    else if incoming.data.alters !in rows then ActionClock(Insert, incoming.data.alters)
    else Replaces(rows[incoming.data.alters], incoming)
  }

  function Post(b: Book, e: Entry): Book {
    var ActionClock(act, what) := Evaluate(b.rows, e);
    match act
    case Replace => Book(b.rows[what := e], b.balance - b.rows[what].data.value + e.data.value)
    case Insert => Book(b.rows[what := e], b.balance + e.data.value)
    case Ignore => b
  }

  function PostAll(b: Book, list: seq<Entry>): Book
    decreases list
  {
    if list == [] then b else PostAll(Post(b, list[0]), list[1..])
  }

  /** The ledger object: built once from a list, then read. */
  class Ledger {
    var balance: int
    var rows: map<Clock, Entry>

    constructor (entries: seq<Entry>)
      ensures Book(rows, balance) == PostAll(EMPTY, entries)
    {
      balance := 0;
      rows := map[];
      new;
      for i := 0 to |entries|
        invariant PostAll(Book(rows, balance), entries[i..]) == PostAll(EMPTY, entries)
      {
        var e := entries[i];
        assert entries[i..][0] == e && entries[i..][1..] == entries[i + 1..];
        var action := Evaluate(rows, e);
        match action.act {
          case Replace =>
            balance := balance - rows[action.what].data.value;
            rows := rows[action.what := e];
            balance := balance + rows[action.what].data.value;
          case Insert =>
            rows := rows[action.what := e];
            balance := balance + rows[action.what].data.value;
          case Ignore =>
        }
      }
    }
  }

  // What a row is: the winner of a contest among the entries of one target

  /** The row an entry competes for: the stamp it alters, or its own. */
  function Target(e: Entry): Clock { if e.data.alters == map[] then e.clock else e.data.alters }

  /** The tie-break: causally later wins, and among concurrent entries the larger author id. */
  predicate Beats(e: Entry, held: Entry) {
    SmallerThan(held.clock, e.clock) || (!SmallerThan(e.clock, held.clock) && held.data.id < e.data.id)
  }

  predicate Supersedes(e: Entry, held: Entry) { e.data.alters != map[] && Beats(e, held) }

  /** One entry meets the current holder of row `t`. */
  function Challenge(held: Option<Entry>, e: Entry, t: Clock): Option<Entry> {
    if Target(e) != t then held
    else if held.None? || Supersedes(e, held.value) then Some(e)
    else held
  }

  /** Who holds row `t` after the whole list. */
  function Contest(held: Option<Entry>, list: seq<Entry>, t: Clock): Option<Entry>
    decreases list
  {
    if list == [] then held else Contest(Challenge(held, list[0], t), list[1..], t)
  }

  function Row(b: Book, t: Clock): Option<Entry> { if t in b.rows then Some(b.rows[t]) else None }

  function OfTarget(list: seq<Entry>, t: Clock): (r: seq<Entry>)
    ensures forall e :: e in r <==> e in list && Target(e) == t
  {
    if list == [] then []
    else if Target(list[0]) == t then [list[0]] + OfTarget(list[1..], t)
    else OfTarget(list[1..], t)
  }

  /** Every row is decided by its own contest, independently of all other rows. */
  lemma {:induction false} RowsAreContests(b: Book, list: seq<Entry>, t: Clock)
    ensures Row(PostAll(b, list), t) == Contest(Row(b, t), list, t)
    decreases list
  {
    if list != [] {
      RowsAreContests(Post(b, list[0]), list[1..], t);
    }
  }

  /** Two edits of one entry, in either order: the causally later one holds the row, and of two concurrent ones by
      different authors the one with the larger author id. */
  lemma ConflictIsResolved(x: Entry, y: Entry, b: Book)
    requires x.data.alters == y.data.alters != map[] && x.data.alters !in b.rows
    requires x.data.id < y.data.id
    ensures var t := x.data.alters;
            Row(PostAll(b, [x, y]), t) == Row(PostAll(b, [y, x]), t) ==
              if Leq(y.clock, x.clock) && x.clock != y.clock then Some(x) else Some(y)
    ensures Leq(y.clock, x.clock) && x.clock != y.clock ==>
              PostAll(b, [x, y]).balance == PostAll(b, [y, x]).balance == b.balance + x.data.value
    ensures !(Leq(y.clock, x.clock) && x.clock != y.clock) ==>
              PostAll(b, [x, y]).balance == PostAll(b, [y, x]).balance == b.balance + y.data.value
  {
    SmallerIsStrictlyBelow(x.clock, y.clock);
    SmallerIsStrictlyBelow(y.clock, x.clock);
    LeqIsPartialOrder(x.clock, y.clock, x.clock);
    PostTwo(b, x, y);
    PostTwo(b, y, x);
  }

  /** An entry and an edit of it that is stamped later: the edit holds the row whichever is read first, and a second
      reading of the entry changes nothing. */
  lemma EditReplacesEntry(x: Entry, y: Entry, b: Book)
    requires x.data.alters == map[] && y.data.alters == x.clock != map[] && x.clock !in b.rows
    requires Leq(x.clock, y.clock) && x.clock != y.clock
    ensures Row(PostAll(b, [x, y]), x.clock) == Row(PostAll(b, [y, x]), x.clock) == Some(y)
    ensures PostAll(b, [x, y]).balance == PostAll(b, [y, x]).balance == b.balance + y.data.value
    ensures PostAll(b, [x, x]) == PostAll(b, [x])
    ensures Row(PostAll(b, [x]), x.clock) == Some(x) && PostAll(b, [x]).balance == b.balance + x.data.value
  {
    SmallerIsStrictlyBelow(x.clock, y.clock);
    PostTwo(b, x, y);
    PostTwo(b, y, x);
    PostTwo(b, x, x);
    assert [x][1..] == [];
  }

  lemma PostTwo(b: Book, x: Entry, y: Entry)
    ensures PostAll(b, [x, y]) == Post(Post(b, x), y)
  {
    assert [x, y][1..] == [y] && [y][1..] == [];
    assert PostAll(Post(b, x), [y]) == Post(Post(b, x), y);
  }

  lemma {:induction false} ContestIgnoresOthers(held: Option<Entry>, list: seq<Entry>, t: Clock)
    ensures Contest(held, list, t) == Contest(held, OfTarget(list, t), t)
    decreases list
  {
    if list != [] {
      ContestIgnoresOthers(Challenge(held, list[0], t), list[1..], t);
      if Target(list[0]) == t {
        assert OfTarget(list, t)[0] == list[0] && OfTarget(list, t)[1..] == OfTarget(list[1..], t);
      }
    }
  }

  lemma {:induction false} ContestConcat(held: Option<Entry>, l1: seq<Entry>, l2: seq<Entry>, t: Clock)
    ensures Contest(held, l1 + l2, t) == Contest(Contest(held, l1, t), l2, t)
    decreases l1
  {
    if l1 == [] {
      assert l1 + l2 == l2;
    } else {
      assert (l1 + l2)[0] == l1[0] && (l1 + l2)[1..] == l1[1..] + l2;
      ContestConcat(Challenge(held, l1[0], t), l1[1..], l2, t);
    }
  }

  /** A row is never invented and never lost: its holder comes from the list (or was there before),
      and a row exists as soon as the list has an entry for it. */
  lemma {:induction false} HolderComesFromList(held: Option<Entry>, list: seq<Entry>, t: Clock)
    ensures var h := Contest(held, list, t);
            (h.Some? <==> held.Some? || exists e :: e in list && Target(e) == t)
            && (h.Some? && h != held ==> h.value in list && Target(h.value) == t)
    decreases list
  {
    if list != [] {
      HolderComesFromList(Challenge(held, list[0], t), list[1..], t);
      assert forall e :: e in list <==> e == list[0] || e in list[1..];
    }
  }

  // The balance

  ghost function Total(rows: map<Clock, Entry>): int {
    if rows == map[] then 0
    else var k :| k in rows; rows[k].data.value + Total(rows - {k})
  }

  lemma {:induction false} TotalWithout(rows: map<Clock, Entry>, k: Clock)
    requires k in rows
    ensures Total(rows) == rows[k].data.value + Total(rows - {k})
    decreases |rows|
  {
    var j :| j in rows && Total(rows) == rows[j].data.value + Total(rows - {j});
    if j != k {
      assert |rows - {j}| < |rows| by { assert (rows - {j}).Keys == rows.Keys - {j}; }
      assert |rows - {k}| < |rows| by { assert (rows - {k}).Keys == rows.Keys - {k}; }
      TotalWithout(rows - {j}, k);
      TotalWithout(rows - {k}, j);
      assert rows - {j} - {k} == rows - {k} - {j};
    }
  }

  lemma TotalUpdate(rows: map<Clock, Entry>, k: Clock, e: Entry)
    ensures Total(rows[k := e]) == Total(rows) + e.data.value - (if k in rows then rows[k].data.value else 0)
  {
    TotalWithout(rows[k := e], k);
    assert rows[k := e] - {k} == rows - {k};
    if k in rows {
      TotalWithout(rows, k);
    } else {
      assert rows - {k} == rows;
    }
  }

  /** The running balance is the sum of the rows after every prefix. */
  lemma {:induction false} BalanceIsTotal(b: Book, list: seq<Entry>)
    requires b.balance == Total(b.rows)
    ensures PostAll(b, list).balance == Total(PostAll(b, list).rows)
    decreases list
  {
    if list != [] {
      TotalUpdate(b.rows, Evaluate(b.rows, list[0]).what, list[0]);
      BalanceIsTotal(Post(b, list[0]), list[1..]);
    }
  }

  lemma SameRowsSameBook(l1: seq<Entry>, l2: seq<Entry>)
    requires forall t: Clock :: Contest(None, l1, t) == Contest(None, l2, t)
    ensures PostAll(EMPTY, l1) == PostAll(EMPTY, l2)
  {
    var b1, b2 := PostAll(EMPTY, l1), PostAll(EMPTY, l2);
    forall t: Clock ensures Row(b1, t) == Row(b2, t) {
      RowsAreContests(EMPTY, l1, t);
      RowsAreContests(EMPTY, l2, t);
    }
    assert b1.rows == b2.rows by {
      forall t: Clock ensures (t in b1.rows <==> t in b2.rows) && (t in b1.rows ==> b1.rows[t] == b2.rows[t]) {
        assert Row(b1, t) == Row(b2, t);
      }
    }
    BalanceIsTotal(EMPTY, l1);
    BalanceIsTotal(EMPTY, l2);
  }

  /** After any list: one row per target seen, each held by an entry of that target, and the
      balance is the sum of the rows. Reordering across targets changes nothing. */
  lemma BookOfList(list: seq<Entry>)
    ensures forall t: Clock :: t in PostAll(EMPTY, list).rows <==> exists e :: e in list && Target(e) == t
    ensures forall t: Clock :: t in PostAll(EMPTY, list).rows ==>
                                 PostAll(EMPTY, list).rows[t] in list && Target(PostAll(EMPTY, list).rows[t]) == t
    ensures PostAll(EMPTY, list).balance == Total(PostAll(EMPTY, list).rows)
  {
    var b := PostAll(EMPTY, list);
    forall t: Clock
      ensures t in b.rows <==> exists e :: e in list && Target(e) == t
      ensures t in b.rows ==> b.rows[t] in list && Target(b.rows[t]) == t
    {
      RowsAreContests(EMPTY, list, t);
      HolderComesFromList(None, list, t);
      assert Row(b, t) == Contest(None, list, t);
    }
    BalanceIsTotal(EMPTY, list);
  }

  lemma OnlyTargetOrderMatters(l1: seq<Entry>, l2: seq<Entry>)
    requires forall t: Clock :: OfTarget(l1, t) == OfTarget(l2, t)
    ensures PostAll(EMPTY, l1) == PostAll(EMPTY, l2)
  {
    forall t: Clock ensures Contest(None, l1, t) == Contest(None, l2, t) {
      ContestIgnoresOthers(None, l1, t);
      ContestIgnoresOthers(None, l2, t);
    }
    SameRowsSameBook(l1, l2);
  }

  // When the order of a target's entries does not matter either

  /** `w` supersedes every other entry that competes for row `t`. */
  ghost predicate Wins(list: seq<Entry>, t: Clock, w: Entry) {
    && w in list
    && Target(w) == t
    && forall x :: x in list && Target(x) == t && x != w ==> Supersedes(w, x)
  }

  ghost predicate HasWinner(list: seq<Entry>, t: Clock) { exists w :: Wins(list, t, w) }

  ghost predicate OrderFree(list: seq<Entry>, t: Clock) {
    forall p: seq<Entry> | multiset(p) == multiset(list) :: Contest(None, p, t) == Contest(None, list, t)
  }

  lemma BeatsIsAsymmetric(x: Entry, y: Entry)
    ensures !(Beats(x, y) && Beats(y, x))
  {
    SmallerIsStrictlyBelow(x.clock, y.clock);
    SmallerIsStrictlyBelow(y.clock, x.clock);
    LeqIsPartialOrder(x.clock, y.clock, x.clock);
  }

  /** A winner that already holds the row, or is still to come against a loser, ends up holding it. */
  lemma {:induction false} WinnerHolds(held: Option<Entry>, list: seq<Entry>, t: Clock, w: Entry)
    requires Target(w) == t
    requires forall x :: x in list && Target(x) == t && x != w ==> Supersedes(w, x)
    requires held == Some(w) || (w in list && (held.None? || Supersedes(w, held.value)))
    ensures Contest(held, list, t) == Some(w)
    decreases list
  {
    if list != [] {
      var e := list[0];
      if Target(e) == t && e != w {
        BeatsIsAsymmetric(w, e);
      }
      if e == w && held == Some(w) {
        BeatsIsAsymmetric(w, w);
      }
      WinnerHolds(Challenge(held, e, t), list[1..], t, w);
    }
  }

  lemma SameElements(p: seq<Entry>, q: seq<Entry>, e: Entry)
    requires multiset(p) == multiset(q)
    ensures e in p <==> e in q
  {
    assert e in p <==> e in multiset(p);
    assert e in q <==> e in multiset(q);
  }

  lemma WinnerMakesOrderFree(list: seq<Entry>, t: Clock)
    requires HasWinner(list, t)
    ensures OrderFree(list, t)
  {
    var w :| Wins(list, t, w);
    WinnerHolds(None, list, t, w);
    forall p: seq<Entry> | multiset(p) == multiset(list) ensures Contest(None, p, t) == Contest(None, list, t) {
      forall e: Entry ensures e in p <==> e in list {
        SameElements(p, list, e);
      }
      WinnerHolds(None, p, t, w);
    }
  }

  function Copies(list: seq<Entry>, r: Entry): (c: seq<Entry>)
    ensures forall e :: e in c ==> e == r
  {
    if list == [] then [] else (if list[0] == r then [r] else []) + Copies(list[1..], r)
  }

  function Without(list: seq<Entry>, r: Entry): (c: seq<Entry>)
    ensures r !in c
  {
    if list == [] then [] else (if list[0] == r then [] else [list[0]]) + Without(list[1..], r)
  }

  lemma {:induction false} SplitOff(list: seq<Entry>, r: Entry)
    ensures multiset(Copies(list, r)) + multiset(Without(list, r)) == multiset(list)
  {
    if list != [] {
      SplitOff(list[1..], r);
      assert list == [list[0]] + list[1..];
    }
  }

  lemma {:induction false} LoserKeepsAgainstCopies(x: Entry, rs: seq<Entry>, r: Entry, t: Clock)
    requires forall e :: e in rs ==> e == r
    requires !Supersedes(r, x)
    ensures Contest(Some(x), rs, t) == Some(x)
  {
    if rs != [] {
      assert rs[0] in rs && forall e :: e in rs[1..] ==> e in rs;
      LoserKeepsAgainstCopies(x, rs[1..], r, t);
    }
  }

  /** An order that defeats `r`: some `x` it cannot supersede goes first, then every copy of `r`. */
  lemma SpoilingOrder(list: seq<Entry>, t: Clock, r: Entry, x: Entry) returns (p: seq<Entry>)
    requires x in list && x != r && Target(x) == t && !Supersedes(r, x)
    ensures multiset(p) == multiset(list)
    ensures Contest(None, p, t) != Some(r)
  {
    var i :| 0 <= i < |list| && list[i] == x;
    var rest := list[..i] + list[i + 1..];
    assert list == list[..i] + [x] + list[i + 1..];
    assert multiset(list) == multiset{x} + multiset(rest);
    var rs, others := Copies(rest, r), Without(rest, r);
    SplitOff(rest, r);
    p := [x] + (rs + others);
    assert p[0] == x && p[1..] == rs + others;
    ContestConcat(Some(x), rs, others, t);
    LoserKeepsAgainstCopies(x, rs, r, t);
    HolderComesFromList(Some(x), others, t);
  }

  /** Row `t` is the same for every order of the list exactly when one of its entries supersedes
      all the others (or none competes for it). */
  lemma OrderFreeExactlyWhenWon(list: seq<Entry>, t: Clock)
    ensures OrderFree(list, t) <==> HasWinner(list, t) || forall e :: e in list ==> Target(e) != t
  {
    HolderComesFromList(None, list, t);
    var h := Contest(None, list, t);
    if HasWinner(list, t) {
      WinnerMakesOrderFree(list, t);
    } else if h.None? {
      forall p: seq<Entry> | multiset(p) == multiset(list) ensures Contest(None, p, t) == h {
        forall e: Entry ensures e in p <==> e in list {
          SameElements(p, list, e);
        }
        HolderComesFromList(None, p, t);
      }
    } else {
      assert !Wins(list, t, h.value);
      var x :| x in list && Target(x) == t && x != h.value && !Supersedes(h.value, x);
      var p := SpoilingOrder(list, t, h.value, x);
      assert Contest(None, p, t) != Contest(None, list, t);
    }
  }

  /** The whole book is independent of the order exactly when every target seen has a winner. */
  lemma BookOrderFreeExactlyWhenWon(list: seq<Entry>)
    ensures (forall p: seq<Entry> | multiset(p) == multiset(list) :: PostAll(EMPTY, p).rows == PostAll(EMPTY, list).rows)
       <==> (forall e :: e in list ==> HasWinner(list, Target(e)))
  {
    if forall e :: e in list ==> HasWinner(list, Target(e)) {
      forall p: seq<Entry> | multiset(p) == multiset(list)
        ensures PostAll(EMPTY, p) == PostAll(EMPTY, list)
      {
        OrderFreeBooks(list, p);
      }
    } else {
      var e :| e in list && !HasWinner(list, Target(e));
      OrderFreeExactlyWhenWon(list, Target(e));
      var p: seq<Entry> :| multiset(p) == multiset(list) && Contest(None, p, Target(e)) != Contest(None, list, Target(e));
      RowsAreContests(EMPTY, p, Target(e));
      RowsAreContests(EMPTY, list, Target(e));
    }
  }

  lemma OrderFreeBooks(list: seq<Entry>, p: seq<Entry>)
    requires multiset(p) == multiset(list)
    requires forall e :: e in list ==> HasWinner(list, Target(e))
    ensures PostAll(EMPTY, p) == PostAll(EMPTY, list)
  {
    forall t: Clock ensures Contest(None, p, t) == Contest(None, list, t) {
      OrderFreeExactlyWhenWon(list, t);
      assert OrderFree(list, t) by {
        if e :| e in list && Target(e) == t {
          assert HasWinner(list, Target(e));
        }
      }
    }
    SameRowsSameBook(p, list);
  }

  // Which edits leave a winner

  predicate Edits(e: Entry, t: Clock) { e.data.alters == t && t != map[] }

  ghost predicate StampedAfterTarget(list: seq<Entry>, t: Clock) {
    forall e :: e in list && Edits(e, t) ==> SmallerThan(t, e.clock)
  }

  ghost predicate TwoEditors(list: seq<Entry>, t: Clock, a: Id, b: Id) {
    && (forall e :: e in list && Edits(e, t) ==> e.data.id == a || e.data.id == b)
    && (forall x, y :: x in list && y in list && Edits(x, t) && Edits(y, t) && x != y && x.data.id == y.data.id ==>
          SmallerThan(x.clock, y.clock) || SmallerThan(y.clock, x.clock))
  }

  lemma TwoEditorsAreComparable(list: seq<Entry>, t: Clock, a: Id, b: Id, x: Entry, y: Entry)
    requires TwoEditors(list, t, a, b)
    requires x in list && y in list && Edits(x, t) && Edits(y, t) && x != y
    ensures Beats(x, y) != Beats(y, x)
  {
    BeatsIsAsymmetric(x, y);
  }

  lemma TwoEditorsAreTransitive(list: seq<Entry>, t: Clock, a: Id, b: Id, x: Entry, y: Entry, z: Entry)
    requires TwoEditors(list, t, a, b)
    requires x in list && y in list && z in list && Edits(x, t) && Edits(y, t) && Edits(z, t)
    requires Beats(x, y) && Beats(y, z)
    ensures x != z && Beats(x, z)
  {
    BeatsIsAsymmetric(x, y);
    BeatsIsAsymmetric(y, z);
    SmallerIsTransitive(x.clock, y.clock, z.clock);
    SmallerIsTransitive(z.clock, y.clock, x.clock);
    SmallerIsTransitive(z.clock, x.clock, y.clock);
    SmallerIsTransitive(y.clock, z.clock, x.clock);
    SmallerIsTransitive(x.clock, z.clock, y.clock);
    SmallerIsTransitive(y.clock, x.clock, z.clock);
  }

  lemma SmallerIsTransitive(c: Clock, d: Clock, e: Clock)
    ensures SmallerThan(c, d) && SmallerThan(d, e) ==> SmallerThan(c, e)
    ensures !(SmallerThan(c, d) && SmallerThan(d, c))
  {
    SmallerIsStrictlyBelow(c, d);
    SmallerIsStrictlyBelow(d, e);
    SmallerIsStrictlyBelow(c, e);
    SmallerIsStrictlyBelow(d, c);
    LeqIsPartialOrder(c, d, e);
    LeqIsPartialOrder(c, d, c);
  }

  lemma {:induction false} BestEdit(list: seq<Entry>, t: Clock, a: Id, b: Id) returns (w: Entry)
    requires TwoEditors(list, t, a, b)
    requires exists e :: e in list && Edits(e, t)
    ensures w in list && Edits(w, t)
    ensures forall x :: x in list && Edits(x, t) && x != w ==> Beats(w, x)
  {
    var h, rest := list[0], list[1..];
    assert forall e :: e in list <==> e == h || e in rest;
    if exists e :: e in rest && Edits(e, t) {
      w := BestEdit(rest, t, a, b);
      if Edits(h, t) && h != w {
        TwoEditorsAreComparable(list, t, a, b, h, w);
        if Beats(h, w) {
          forall x | x in rest && Edits(x, t) && x != h ensures Beats(h, x) {
            if x != w {
              TwoEditorsAreTransitive(list, t, a, b, h, w, x);
            }
          }
          w := h;
        }
      }
    } else {
      w := h;
    }
  }

  /** With two editors, each editing in causal order after the target's stamp, the order is free. */
  lemma TwoEditorsHaveWinner(list: seq<Entry>, t: Clock, a: Id, b: Id)
    requires TwoEditors(list, t, a, b) && StampedAfterTarget(list, t)
    requires exists e :: e in list && Edits(e, t)
    ensures HasWinner(list, t) && OrderFree(list, t)
  {
    var w := BestEdit(list, t, a, b);
    assert Wins(list, t, w);
    WinnerMakesOrderFree(list, t);
  }

  ghost predicate HasTwoEditors(list: seq<Entry>, t: Clock) {
    StampedAfterTarget(list, t) && exists a, b :: TwoEditors(list, t, a, b)
  }

  ghost predicate StampsDiffer(list: seq<Entry>) {
    forall x, y | x in list && y in list && x.clock == y.clock :: x == y
  }

  lemma TargetHasWinner(list: seq<Entry>, e: Entry)
    requires StampsDiffer(list) && e in list
    requires forall x | x in list && x.data.alters != map[] :: HasTwoEditors(list, x.data.alters)
    ensures HasWinner(list, Target(e))
  {
    var t := Target(e);
    if x :| x in list && Edits(x, t) {
      var a, b :| TwoEditors(list, t, a, b);
      TwoEditorsHaveWinner(list, t, a, b);
    } else {
      assert Wins(list, t, e);
    }
  }

  /** When every edited target has at most two editors, each editing in causal order after the target, and
      stamps identify entries, the whole book, balance included, is the same for every order of the list. */
  lemma TwoEditorBooksAreOrderFree(list: seq<Entry>, p: seq<Entry>)
    requires multiset(p) == multiset(list) && StampsDiffer(list)
    requires forall x | x in list && x.data.alters != map[] :: HasTwoEditors(list, x.data.alters)
    ensures PostAll(EMPTY, p) == PostAll(EMPTY, list)
  {
    forall e | e in list ensures HasWinner(list, Target(e)) {
      TargetHasWinner(list, e);
    }
    OrderFreeBooks(list, p);
  }

  // What causal order alone guarantees

  ghost predicate CausalOrder(list: seq<Entry>) {
    forall i, j | 0 <= i < j < |list| :: !SmallerThan(list[j].clock, list[i].clock)
  }

  ghost predicate NotSuperseded(held: Option<Entry>, list: seq<Entry>, t: Clock) {
    held.Some? ==> forall x :: x in list && Edits(x, t) ==> !SmallerThan(held.value.clock, x.clock)
  }

  lemma {:induction false} CausalContest(done: seq<Entry>, list: seq<Entry>, t: Clock, held: Option<Entry>)
    requires CausalOrder(done + list)
    requires NotSuperseded(held, done, t)
    requires held.None? ==> forall x :: x in done ==> !Edits(x, t)
    requires held.Some? ==> held.value in done
    ensures NotSuperseded(Contest(held, list, t), done + list, t)
    decreases list
  {
    if list == [] {
      assert done + list == done;
    } else {
      var e := list[0];
      assert (done + [e]) + list[1..] == done + list;
      forall x | x in done ensures !SmallerThan(e.clock, x.clock) {
        var i :| 0 <= i < |done| && done[i] == x;
        assert (done + list)[i] == x && (done + list)[|done|] == e;
      }
      SmallerIsTransitive(e.clock, e.clock, e.clock);
      CausalContest(done + [e], list[1..], t, Challenge(held, e, t));
    }
  }

  /** Folding a list in causal order never leaves a row with an entry that some edit of the same
      target causally supersedes. */
  lemma CausalOrderKeepsLatest(list: seq<Entry>, t: Clock)
    requires CausalOrder(list)
    ensures NotSuperseded(Row(PostAll(EMPTY, list), t), list, t)
  {
    assert [] + list == list;
    CausalContest([], list, t, None);
    RowsAreContests(EMPTY, list, t);
  }

  // One booking by author 9, edited by authors 3, 1 (who has seen 3's edit) and 2.
  const BOOKED: Entry := Entry(map[9 := 1], Data(9, 100, map[]))
  const BY3: Entry := Entry(map[3 := 1, 9 := 1], Data(3, 30, map[9 := 1]))
  const BY1: Entry := Entry(map[1 := 1, 3 := 1, 9 := 1], Data(1, 10, map[9 := 1]))
  const BY2: Entry := Entry(map[2 := 1, 9 := 1], Data(2, 20, map[9 := 1]))

  lemma ExtraAuthorIsLater(c: Clock, d: Clock, a: Id)
    requires a in d && a !in c && d - {a} == c
    ensures SmallerThan(c, d) && !SmallerThan(d, c)
  {
    SmallerIsStrictlyBelow(c, d);
    SmallerIsStrictlyBelow(d, c);
  }

  lemma OwnAuthorsAreConcurrent(c: Clock, d: Clock, a: Id, b: Id)
    requires a in c && a !in d && b in d && b !in c
    ensures !SmallerThan(c, d) && !SmallerThan(d, c)
  {
    SmallerIsStrictlyBelow(c, d);
    SmallerIsStrictlyBelow(d, c);
  }

  lemma ThreeEditorsStamps()
    ensures SmallerThan(BY3.clock, BY1.clock) && !SmallerThan(BY1.clock, BY3.clock)
    ensures !SmallerThan(BY2.clock, BY3.clock) && !SmallerThan(BY3.clock, BY2.clock)
    ensures !SmallerThan(BY2.clock, BY1.clock) && !SmallerThan(BY1.clock, BY2.clock)
  {
    assert BY1.clock - {1} == BY3.clock;
    ExtraAuthorIsLater(BY3.clock, BY1.clock, 1);
    OwnAuthorsAreConcurrent(BY2.clock, BY3.clock, 2, 3);
    OwnAuthorsAreConcurrent(BY2.clock, BY1.clock, 2, 3);
  }

  lemma ThreeEditorsAfterTarget()
    ensures SmallerThan(BOOKED.clock, BY3.clock) && !SmallerThan(BY3.clock, BOOKED.clock)
    ensures SmallerThan(BOOKED.clock, BY2.clock) && !SmallerThan(BY2.clock, BOOKED.clock)
    ensures SmallerThan(BOOKED.clock, BY1.clock) && !SmallerThan(BY1.clock, BOOKED.clock)
  {
    assert BY3.clock - {3} == BOOKED.clock;
    ExtraAuthorIsLater(BOOKED.clock, BY3.clock, 3);
    assert BY2.clock - {2} == BOOKED.clock;
    ExtraAuthorIsLater(BOOKED.clock, BY2.clock, 2);
    ThreeEditorsStamps();
    SmallerIsTransitive(BOOKED.clock, BY3.clock, BY1.clock);
    SmallerIsTransitive(BOOKED.clock, BY1.clock, BOOKED.clock);
  }

  /** The two ways a contest over three edits of a booking goes. */
  lemma ThreeRounds(b: Entry, x: Entry, y: Entry, z: Entry, t: Clock)
    requires b.clock == t && b.data.alters == map[] && Edits(x, t) && Edits(y, t) && Edits(z, t)
    requires Beats(x, b)
    ensures Beats(y, x) && Beats(z, y) ==> Contest(None, [b, x, y, z], t) == Some(z)
    ensures !Beats(y, x) && Beats(z, x) ==> Contest(None, [b, x, y, z], t) == Some(z)
  {
    assert [b, x, y, z][1..] == [x, y, z] && [x, y, z][1..] == [y, z] && [y, z][1..] == [z];
    assert Contest(None, [b, x, y, z], t) == Contest(Some(b), [x, y, z], t) == Contest(Some(x), [y, z], t);
    var held := Challenge(Some(x), y, t);
    assert Contest(Some(x), [y, z], t) == Contest(held, [z], t) == Challenge(held, z, t);
  }

  lemma FourInCausalOrder(b: Entry, x: Entry, y: Entry, z: Entry)
    requires !SmallerThan(x.clock, b.clock) && !SmallerThan(y.clock, b.clock) && !SmallerThan(z.clock, b.clock)
    requires !SmallerThan(y.clock, x.clock) && !SmallerThan(z.clock, x.clock) && !SmallerThan(z.clock, y.clock)
    ensures CausalOrder([b, x, y, z])
  {
    var list := [b, x, y, z];
    forall i, j | 0 <= i < j < |list| ensures !SmallerThan(list[j].clock, list[i].clock) {
      assert list[i] == if i == 0 then b else if i == 1 then x else y;
      assert list[j] == if j == 1 then x else if j == 2 then y else z;
    }
  }

  lemma RoundsBalance(b: Entry, x: Entry, y: Entry, z: Entry, t: Clock)
    requires b.clock == t && b.data.alters == map[] && Edits(x, t) && Edits(y, t) && Edits(z, t)
    requires Beats(x, b)
    requires (Beats(y, x) && Beats(z, y)) || (!Beats(y, x) && Beats(z, x))
    ensures PostAll(EMPTY, [b, x, y, z]).balance == z.data.value
  {
    ThreeRounds(b, x, y, z, t);
    BalanceOfOneRow([b, x, y, z], t);
  }

  /** Three editors are enough to break it: BY1 beats BY3, BY3 beats BY2, BY2 beats BY1. The two
      lists hold the same entries, both in causal order, every edit after its target; the balances differ. */
  lemma ThreeEditorsCanDisagree()
    ensures Beats(BY1, BY3) && Beats(BY3, BY2) && Beats(BY2, BY1)
    ensures SmallerThan(BOOKED.clock, BY1.clock) && SmallerThan(BOOKED.clock, BY2.clock) && SmallerThan(BOOKED.clock, BY3.clock)
    ensures CausalOrder([BOOKED, BY3, BY1, BY2]) && CausalOrder([BOOKED, BY3, BY2, BY1])
    ensures PostAll(EMPTY, [BOOKED, BY3, BY1, BY2]).balance == 20
    ensures PostAll(EMPTY, [BOOKED, BY3, BY2, BY1]).balance == 10
  {
    assert 9 in BOOKED.clock;
    ThreeEditorsStamps();
    ThreeEditorsAfterTarget();
    FourInCausalOrder(BOOKED, BY3, BY1, BY2);
    FourInCausalOrder(BOOKED, BY3, BY2, BY1);
    BeatsIsAsymmetric(BY3, BY2);
    RoundsBalance(BOOKED, BY3, BY1, BY2, BOOKED.clock);
    RoundsBalance(BOOKED, BY3, BY2, BY1, BOOKED.clock);
  }

  lemma BalanceOfOneRow(list: seq<Entry>, t: Clock)
    requires list != [] && forall e :: e in list ==> Target(e) == t
    ensures Contest(None, list, t).Some?
    ensures PostAll(EMPTY, list).balance == Contest(None, list, t).value.data.value
  {
    RowsAreContests(EMPTY, list, t);
    BookOfList(list);
    var rows := PostAll(EMPTY, list).rows;
    assert list[0] in list;
    assert rows.Keys == {t};
    TotalWithout(rows, t);
    assert rows - {t} == map[];
  }
}
