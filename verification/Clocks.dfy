/** Map clocks: an absent author counts zero. */
module Clocks {
  type Id = nat
  type Time = nat
  type Clock = map<Id, Time>

  /** What an insert answers when it refuses an entry: id 0 marks an invalid clock. */
  const INVALID: Clock := map[0 := 0]

  predicate Valid(c: Clock) { 0 !in c }

  function At(c: Clock, a: Id): Time { if a in c then c[a] else 0 }

  function Merge(c: Clock, d: Clock): Clock {
    map a | a in c.Keys + d.Keys :: if At(c, a) < At(d, a) then At(d, a) else At(c, a)
  }

  function Tick(c: Clock, a: Id): Clock { c[a := At(c, a) + 1] }

  predicate SmallerThan(c: Clock, d: Clock) { c != d && Merge(c, d) == d }

  predicate Concurrent(c: Clock, d: Clock) {
    c != d && !SmallerThan(c, d) && !SmallerThan(d, c)
  }

  predicate IsNext(c: Clock, other: Clock, id: Id) {
    id in c && if id !in other then c[id] == 1 else c[id] == other[id] + 1
  }

  /** The pointwise order that merge and smallerThan are meant to implement. */
  predicate Leq(c: Clock, d: Clock) {
    forall a | a in c :: a in d && c[a] <= d[a]
  }

  // The map operations against the pointwise order

  lemma SmallerIsStrictlyBelow(c: Clock, d: Clock)
    ensures SmallerThan(c, d) <==> c != d && Leq(c, d)
  {
    if Leq(c, d) {
      assert Merge(c, d) == d;
    }
    if Merge(c, d) == d {
      forall a | a in c ensures a in d && c[a] <= d[a] {
        assert a in Merge(c, d);
      }
    }
  }

  lemma MergeIsLeastUpperBound(c: Clock, d: Clock)
    ensures Leq(c, Merge(c, d)) && Leq(d, Merge(c, d))
    ensures forall u: Clock :: Leq(c, u) && Leq(d, u) ==> Leq(Merge(c, d), u)
    ensures forall a: Id :: At(Merge(c, d), a) == if At(c, a) < At(d, a) then At(d, a) else At(c, a)
  {}

  lemma LeqIsPartialOrder(c: Clock, d: Clock, e: Clock)
    ensures Leq(c, c)
    ensures Leq(c, d) && Leq(d, c) ==> c == d
    ensures Leq(c, d) && Leq(d, e) ==> Leq(c, e)
  {}

  lemma ConcurrentIsIncomparable(c: Clock, d: Clock)
    ensures Concurrent(c, d) <==> !Leq(c, d) && !Leq(d, c)
  {
    SmallerIsStrictlyBelow(c, d);
    SmallerIsStrictlyBelow(d, c);
    LeqIsPartialOrder(c, d, c);
    LeqIsPartialOrder(c, c, c);
  }

  /** An admitted stamp is never below the clock that admits it, and is not next again after a merge. */
  lemma NextIsNew(c: Clock, other: Clock, id: Id)
    requires IsNext(c, other, id)
    ensures !Leq(c, other)
    ensures !IsNext(c, Merge(other, c), id)
  {
    assert At(Merge(other, c), id) >= c[id];
  }

  lemma TickIsNext(c: Clock, id: Id)
    ensures IsNext(Tick(c, id), c, id)
    ensures Leq(c, Tick(c, id)) && Merge(c, Tick(c, id)) == Tick(c, id)
  {}

  // The loops of the implementation

  method MergeLoop(c: Clock, other: Clock) returns (out: Clock)
    ensures out == Merge(c, other)
  {
    out := c;
    var left := other.Keys;
    while left != {}
      invariant left <= other.Keys
      invariant out.Keys == c.Keys + (other.Keys - left)
      invariant forall a | a in out ::
        out[a] == if a in left then At(c, a) else if At(c, a) < At(other, a) then At(other, a) else At(c, a)
      decreases left
    {
      var id :| id in left;
      var count := other[id];
      out := out[id := if At(c, id) < count then count else At(c, id)];
      left := left - {id};
    }
  }
}
